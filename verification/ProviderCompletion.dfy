/** What the counting test means, for one status and over every interleaving of writers. */
module ProviderCompletion {
  import opened Common
  import opened ProviderModel
  import Store

  // ---------------------------------------------------------------------------------------
  // The counting test

  /** Whenever the test passes on keys from `contributors`, every active provider's key is there. */
  ghost predicate TestSound(list: seq<Provider>, contributors: set<string>) {
    forall keys: set<string> ::
      keys <= contributors && 0 < |ActiveNames(list)| <= |keys| ==> ActiveSet(list) <= keys
  }

  /** The condition in terms of sizes. */
  predicate Exact(list: seq<Provider>, contributors: set<string>) {
    var n := |ActiveNames(list)|;
    n == 0 || |contributors| < n || (|contributors| == n && ActiveSet(list) <= contributors)
  }

  /** Counting stands in for comparing names exactly under the size condition. */
  lemma CountTestSoundIff(list: seq<Provider>, contributors: set<string>)
    ensures TestSound(list, contributors) <==> Exact(list, contributors)
  {
    var n := |ActiveNames(list)|;
    if Exact(list, contributors) {
      forall keys: set<string> | keys <= contributors && 0 < n <= |keys| ensures ActiveSet(list) <= keys {
        SubsetSize(keys, contributors);
      }
    }
    if TestSound(list, contributors) && 0 < n <= |contributors| {
      assert ActiveSet(list) <= contributors;
      ActiveNamesAre(list);
      var a := ActiveNames(list)[0];
      var others := contributors - {a};
      assert a in ActiveSet(list) && a !in others;
      assert !(n <= |others|);
    }
  }

  /** With distinct active names, the contributors must be the active providers, no more and no fewer. */
  lemma DistinctNamesExact(list: seq<Provider>, contributors: set<string>)
    requires Distinct(ActiveNames(list)) && ActiveSet(list) <= contributors && ActiveNames(list) != []
    ensures TestSound(list, contributors) <==> contributors == ActiveSet(list)
  {
    CountTestSoundIff(list, contributors);
    ActiveCount(list);
    SubsetSize(ActiveSet(list), contributors);
  }

  /** When only active providers contribute, a name listed twice keeps the test from ever passing. */
  lemma CompletableIffDistinct(list: seq<Provider>)
    requires ActiveNames(list) != []
    ensures (exists keys: set<string> :: keys <= ActiveSet(list) && |ActiveNames(list)| <= |keys|) <==>
        Distinct(ActiveNames(list))
  {
    ActiveCount(list);
    if keys: set<string> :| keys <= ActiveSet(list) && |ActiveNames(list)| <= |keys| {
      SubsetSize(keys, ActiveSet(list));
    }
    assert ActiveSet(list) <= ActiveSet(list);
  }

  // ---------------------------------------------------------------------------------------
  // Every interleaving of writers

  ghost predicate Contributes<D(!new)>(a: Status<D>, b: Status<D>, contributors: set<string>) {
    exists name: string, d: D :: name in contributors && b == Contributed(a, name, d)
  }

  ghost predicate Completes<D>(a: Status<D>, b: Status<D>, lists: set<seq<Provider>>) {
    exists list, now: int :: list in lists && TestPasses(list, a.data) && b == Finished(a, list, now)
  }

  ghost predicate Initializes<D>(a: Status<D>, b: Status<D>) {
    exists stamp: Option<int> :: b == Initialized(a, stamp)
  }

  /** Any write of any operator; `b == a` is a label update or a write that changes nothing. */
  ghost predicate Writes<D(!new)>(lists: set<seq<Provider>>, contributors: set<string>, a: Status<D>, b: Status<D>) {
    b == a || Initializes(a, b) || Contributes(a, b, contributors) || Completes(a, b, lists)
  }

  ghost function Writers<D(!new)>(lists: set<seq<Provider>>, contributors: set<string>): Store.Change<Status<D>> {
    (a, b) => Writes(lists, contributors, a, b)
  }

  ghost function Fresh<D>(): Status<D> {
    Status(New, None, None, map[])
  }

  /** Both controllers' writes, and those of the contribution helper, are of this kind. */
  lemma ControllersWrite<D(!new)>(lists: set<seq<Provider>>, contributors: set<string>, a: Status<D>, b: Status<D>,
      name: string, d: D, listed: seq<Provider>, relisted: seq<Provider>, now: int)
    requires name in contributors && listed in lists
    requires ConfigWrite(a, b, name, d, listed, relisted, now) || TargetWrite(a, b, name, d, listed, now)
        || b == Contributed(a, name, d)
    ensures Writes(lists, contributors, a, b)
  {
  }

  ghost predicate Keeps<D>(a: Status<D>, b: Status<D>) {
    a.data.Keys <= b.data.Keys && (a.phase.Completed? ==> b.phase.Completed?)
  }

  /** Keys are never lost and Completed never reverts, in any interleaving. */
  lemma KeysAndCompletionStay<D(!new)>(lists: set<seq<Provider>>, contributors: set<string>,
      run: seq<Store.Object<Status<D>>>, i: nat, j: nat)
    requires Store.Run(Writers(lists, contributors), Fresh(), run)
    requires i <= j < |run[|run| - 1].history|
    ensures Keeps(run[|run| - 1].history[i], run[|run| - 1].history[j])
  {
    var change := Writers<D>(lists, contributors);
    Store.CompareAndSetSerialises(change, Fresh(), run);
    var history := run[|run| - 1].history;
    forall k | i < k < |history| ensures Keeps(history[k - 1], history[k]) {
      assert change(history[k - 1], history[k]);
    }
    Store.Between((a: Status<D>, b: Status<D>) => Keeps(a, b), history, i, j);
  }

  /** A completed status was completed by a list whose test passes on it. */
  ghost predicate Justified<D>(lists: set<seq<Provider>>, contributors: set<string>, s: Status<D>) {
    && s.data.Keys <= contributors
    && (s.phase.Completed? ==> exists list :: list in lists && TestPasses(list, s.data))
  }

  lemma WriteKeepsJustified<D(!new)>(lists: set<seq<Provider>>, contributors: set<string>, a: Status<D>, b: Status<D>)
    requires Justified(lists, contributors, a) && Writes(lists, contributors, a, b)
    ensures Justified(lists, contributors, b)
  {
    assert a.data.Keys <= b.data.Keys;
    SubsetSize(a.data.Keys, b.data.Keys);
    assert |a.data| == |a.data.Keys| && |b.data| == |b.data.Keys|;
    if b.phase.Completed? {
      if a.phase.Completed? {
        var list :| list in lists && TestPasses(list, a.data);
        assert TestPasses(list, b.data);
      } else {
        var list, now: int :| list in lists && TestPasses(list, a.data) && b == Finished(a, list, now);
        assert TestPasses(list, b.data);
      }
    }
  }

  lemma {:induction false} HistoryJustified<D(!new)>(lists: set<seq<Provider>>, contributors: set<string>,
      history: seq<Status<D>>, v: nat)
    requires v < |history| && history[0] == Fresh()
    requires Store.Linear(Writers(lists, contributors), history)
    ensures Justified(lists, contributors, history[v])
  {
    if v > 0 {
      HistoryJustified(lists, contributors, history, v - 1);
      assert Writers<D>(lists, contributors)(history[v - 1], history[v]);
      WriteKeepsJustified(lists, contributors, history[v - 1], history[v]);
    }
  }

  /** Completed means that every active provider of some list in use has contributed. */
  ghost predicate AllContributed<D>(lists: set<seq<Provider>>, s: Status<D>) {
    s.phase.Completed? ==> exists list :: list in lists && ActiveNames(list) != [] && ActiveSet(list) <= s.data.Keys
  }

  /** Over every interleaving, under the exact size condition for each list used in a test. */
  lemma CompletedMeansAllContributed<D(!new)>(lists: set<seq<Provider>>, contributors: set<string>,
      run: seq<Store.Object<Status<D>>>, v: nat)
    requires Store.Run(Writers(lists, contributors), Fresh(), run)
    requires forall list :: list in lists ==> Exact(list, contributors)
    requires v < |run[|run| - 1].history|
    ensures AllContributed(lists, run[|run| - 1].history[v])
  {
    var history := run[|run| - 1].history;
    Store.CompareAndSetSerialises(Writers<D>(lists, contributors), Fresh(), run);
    HistoryJustified(lists, contributors, history, v);
    var s := history[v];
    if s.phase.Completed? {
      var list :| list in lists && TestPasses(list, s.data);
      CountTestSoundIff(list, contributors);
      assert |s.data| == |s.data.Keys|;
      assert TestSound(list, contributors);
    }
  }

  // ---------------------------------------------------------------------------------------
  // The condition is needed

  ghost function Filled<D>(order: seq<string>, d: D): Status<D> {
    if order == [] then Fresh() else Contributed(Filled(order[..|order| - 1], d), order[|order| - 1], d)
  }

  /** The history in which the operators of `order` contribute one after the other. */
  ghost function Filling<D>(order: seq<string>, d: D): seq<Status<D>> {
    if order == [] then [Fresh()] else Filling(order[..|order| - 1], d) + [Filled(order, d)]
  }

  lemma {:induction false} FillingIsHistory<D(!new)>(lists: set<seq<Provider>>, contributors: set<string>,
      order: seq<string>, d: D)
    requires forall n :: n in order ==> n in contributors
    ensures var h := Filling(order, d);
            && |h| == |order| + 1 && h[0] == Fresh() && h[|order|] == Filled(order, d)
            && Store.Linear(Writers(lists, contributors), h)
    ensures Filled(order, d).phase.New?
    ensures forall n :: n in Filled(order, d).data.Keys <==> n in order
  {
    if order != [] {
      var front := order[..|order| - 1];
      assert order == front + [order[|order| - 1]];
      FillingIsHistory(lists, contributors, front, d);
      var a, b := Filled(front, d), Filled(order, d);
      assert Contributes(a, b, contributors);
      AppendWrite(lists, contributors, Filling(front, d), b);
    }
  }

  lemma AppendWrite<D(!new)>(lists: set<seq<Provider>>, contributors: set<string>, h: seq<Status<D>>, b: Status<D>)
    requires h != [] && Store.Linear(Writers(lists, contributors), h)
    requires Writes(lists, contributors, h[|h| - 1], b)
    ensures Store.Linear(Writers(lists, contributors), h + [b])
  {
    var h' := h + [b];
    var change := Writers<D>(lists, contributors);
    forall i | 0 < i < |h'| ensures change(h'[i - 1], h'[i]) {
      if i < |h| {
        assert change(h[i - 1], h[i]);
      }
    }
  }

  ghost predicate AlwaysSound<D(!new)>(list: seq<Provider>, contributors: set<string>) {
    forall h: seq<Status<D>> :: h != [] && h[0] == Fresh() && Store.Linear(Writers({list}, contributors), h) ==>
      AllContributed({list}, h[|h| - 1])
  }

  /** Outside the condition some history completes while an active provider is missing. */
  lemma UnsoundHistory<D(!new)>(list: seq<Provider>, contributors: set<string>, d: D)
    requires !Exact(list, contributors)
    ensures !AlwaysSound<D>(list, contributors)
  {
    CountTestSoundIff(list, contributors);
    var keys: set<string> :| keys <= contributors && 0 < |ActiveNames(list)| <= |keys| && !(ActiveSet(list) <= keys);
    var order := EnumerationOf(keys);
    FillingIsHistory({list}, contributors, order, d);
    var s := Filled(order, d);
    assert s.data.Keys == keys && |s.data| == |s.data.Keys|;
    var done := Finished(s, list, 0);
    assert list in {list} && TestPasses(list, s.data);
    assert Completes(s, done, {list});
    var h := Filling(order, d) + [done];
    AppendWrite({list}, contributors, Filling(order, d), done);
    assert h[|h| - 1] == done;
    assert !AllContributed({list}, done);
  }

  /** The size condition is exactly what makes completion trustworthy over all histories. */
  lemma CompletionTrustworthyIff<D(!new)>(list: seq<Provider>, contributors: set<string>, d: D)
    ensures AlwaysSound<D>(list, contributors) <==> Exact(list, contributors)
  {
    if Exact(list, contributors) {
      CountTestSoundIff(list, contributors);
      forall h: seq<Status<D>> | h != [] && h[0] == Fresh() && Store.Linear(Writers({list}, contributors), h)
        ensures AllContributed({list}, h[|h| - 1])
      {
        HistoryJustified({list}, contributors, h, |h| - 1);
        var s := h[|h| - 1];
        assert |s.data| == |s.data.Keys|;
      }
    } else {
      UnsoundHistory(list, contributors, d);
    }
  }

  // ---------------------------------------------------------------------------------------
  // Progress: one undisturbed pass per active operator, in any order

  /** The first entry of every listed name is the active one. */
  ghost predicate FirstActive(list: seq<Provider>) {
    forall n :: n in ActiveSet(list) ==> IsActive(list, n)
  }

  ghost function Pass<D>(config: bool, s: Status<D>, name: string, d: D, list: seq<Provider>, now: int): Status<D> {
    if config then ConfigPass(s, name, d, list, list, now) else TargetPass(s, name, d, list, now)
  }

  ghost function Round<D>(config: bool, order: seq<string>, d: string -> D, list: seq<Provider>, now: int): Status<D> {
    if order == [] then Fresh()
    else
      var name := order[|order| - 1];
      Pass(config, Round(config, order[..|order| - 1], d, list, now), name, d(name), list, now)
  }

  /** An active operator that has not contributed yet adds its key and then runs the test. */
  lemma PassByActive<D>(config: bool, s: Status<D>, name: string, d: D, list: seq<Provider>, now: int)
    requires !s.phase.Completed? && IsActive(list, name) && name !in s.data
    ensures var r := Pass(config, s, name, d, list, now);
            && r.data == s.data[name := d]
            && |r.data| == |s.data| + 1
            && (r.phase.Completed? <==> 0 < |ActiveNames(list)| <= |r.data|)
  {
    KeyAdded(s.data, name, d);
    PassIs(config, s, name, d, list, now);
  }

  lemma KeyAdded<D>(data: map<string, D>, name: string, d: D)
    requires name !in data
    ensures |data[name := d]| == |data| + 1
  {
    var more := data[name := d];
    assert more.Keys == data.Keys + {name} && |more| == |more.Keys| && |data| == |data.Keys|;
  }

  lemma PassIs<D>(config: bool, s: Status<D>, name: string, d: D, list: seq<Provider>, now: int)
    requires !s.phase.Completed? && IsActive(list, name) && name !in s.data
    ensures Pass(config, s, name, d, list, now) ==
      Finished(Contributed(Initialized(s, if config then Some(now) else None), name, d), list, now)
  {
  }

  ghost function Gathered<D>(order: seq<string>, d: string -> D): map<string, D> {
    map n | n in order :: d(n)
  }

  lemma GatheredMore<D>(front: seq<string>, name: string, d: string -> D)
    ensures Gathered(front + [name], d) == Gathered(front, d)[name := d(name)]
    ensures name in Gathered(front, d) <==> name in front
  {
  }

  lemma {:induction false} RoundState<D>(config: bool, order: seq<string>, d: string -> D, list: seq<Provider>,
      now: int)
    requires Distinct(order) && |order| <= |ActiveNames(list)|
    requires forall i :: 0 <= i < |order| ==> IsActive(list, order[i])
    ensures var s := Round(config, order, d, list, now);
            && s.data == Gathered(order, d)
            && |s.data| == |order|
            && (s.phase.Completed? <==> order != [] && |ActiveNames(list)| <= |order|)
  {
    if order == [] {
      assert Round(config, order, d, list, now).data == Gathered(order, d);
    } else {
      var front, name := order[..|order| - 1], order[|order| - 1];
      assert order == front + [name] && IsActive(list, order[|order| - 1]);
      assert forall i :: 0 <= i < |front| ==> front[i] == order[i];
      RoundState(config, front, d, list, now);
      GatheredMore(front, name, d);
      PassByActive(config, Round(config, front, d, list, now), name, d(name), list, now);
    }
  }

  /**
   With distinct active names, one pass per active operator in any order completes the request
   exactly at the last pass, with every operator's contribution in it.
   */
  lemma LastPassCompletes<D>(config: bool, order: seq<string>, k: nat, d: string -> D, list: seq<Provider>, now: int)
    requires Enumerates(order, ActiveSet(list)) && k <= |order| && order != []
    requires FirstActive(list) && Distinct(ActiveNames(list))
    ensures var s := Round(config, order[..k], d, list, now);
            && (s.phase.Completed? <==> k == |order|)
            && s.data == Gathered(order[..k], d)
  {
    ActiveCount(list);
    EnumerationSize(order, ActiveSet(list));
    RoundState(config, order[..k], d, list, now);
  }
}
