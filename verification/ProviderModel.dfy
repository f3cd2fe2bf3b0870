/**
 A status shared by several operators: each adds its own key to one map, and the request counts as
 complete once the map has as many keys as there are active providers.
 */
module ProviderModel {
  import opened Common

  datatype Provider = Provider(name: string, active: bool)

  /** The status strings "", "pending" and "Completed". */
  datatype Phase = New | Pending | Completed

  datatype Status<D> = Status(phase: Phase, created: Option<int>, completed: Option<int>, data: map<string, D>)

  /** The names of the active entries, in list order. */
  function ActiveNames(list: seq<Provider>): seq<string> {
    if list == [] then []
    else
      var last := list[|list| - 1];
      ActiveNames(list[..|list| - 1]) + (if last.active then [last.name] else [])
  }

  function ActiveSet(list: seq<Provider>): set<string> {
    set p | p in list && p.active :: p.name
  }

  /** The first entry with that name decides whether an operator takes itself to be active. */
  ghost predicate IsActive(list: seq<Provider>, name: string) {
    exists i :: 0 <= i < |list| && list[i] == Provider(name, true) && (forall j :: 0 <= j < i ==> list[j].name != name)
  }

  predicate TestPasses<D>(list: seq<Provider>, data: map<string, D>) {
    |ActiveNames(list)| > 0 && |data| >= |ActiveNames(list)|
  }

  /** Only the provider-configuration controller stamps the creation time. */
  function Initialized<D>(s: Status<D>, stamp: Option<int>): Status<D> {
    if s.phase.New? then s.(phase := Pending, created := if stamp.Some? then stamp else s.created) else s
  }

  function Contributed<D>(s: Status<D>, name: string, d: D): Status<D> {
    s.(data := s.data[name := d])
  }

  function Finished<D>(s: Status<D>, list: seq<Provider>, now: int): Status<D> {
    if TestPasses(list, s.data) then s.(phase := Completed, completed := Some(now)) else s
  }

  // ---------------------------------------------------------------------------------------
  // A pass nobody disturbs

  /** The configuration controller lists providers once for the test and again for its own activity. */
  ghost function ConfigPass<D>(s: Status<D>, name: string, marker: D, listed: seq<Provider>, relisted: seq<Provider>,
      now: int): Status<D> {
    if s.phase.Completed? then s
    else
      var i := Initialized(s, Some(now));
      Finished(if IsActive(relisted, name) && name !in i.data then Contributed(i, name, marker) else i, listed, now)
  }

  /** The target-request controller does nothing while inactive and otherwise always rewrites its key. */
  ghost function TargetPass<D>(s: Status<D>, name: string, targets: D, listed: seq<Provider>, now: int): Status<D> {
    if s.phase.Completed? || !IsActive(listed, name) then s
    else Finished(Contributed(Initialized(s, None), name, targets), listed, now)
  }

  /** The number of active entries of the list. */
  ghost function ActiveEntries(list: seq<Provider>): nat {
    |set i | 0 <= i < |list| && list[i].active|
  }

  lemma {:induction false} ActiveEntriesCounted(list: seq<Provider>)
    ensures |ActiveNames(list)| == ActiveEntries(list)
  {
    if list != [] {
      var n := |list| - 1;
      ActiveEntriesCounted(list[..n]);
      var front := set i | 0 <= i < |list[..n]| && list[..n][i].active;
      var all := set i | 0 <= i < |list| && list[i].active;
      assert all == front + (if list[n].active then {n} else {});
    }
  }

  /** The request is complete now if there are active entries and no fewer keys than those; else it is as before. */
  ghost predicate CompletedByCount<D>(before: Status<D>, list: seq<Provider>, now: int, after: Status<D>) {
    if 0 < ActiveEntries(list) <= |after.data| then after.phase == Completed && after.completed == Some(now)
    else after.phase == Pending && after.completed == before.completed
  }

  /** An active operator's pass over an open request: its targets replace whatever it had contributed before. */
  lemma TargetPassMeaning<D>(s: Status<D>, name: string, targets: D, listed: seq<Provider>, now: int)
    ensures var r := TargetPass(s, name, targets, listed, now);
            if s.phase == Completed || !IsActive(listed, name) then r == s
            else r.data == s.data[name := targets] && r.created == s.created && CompletedByCount(s, listed, now, r)
  {
    ActiveEntriesCounted(listed);
  }

  /** The configuration controller's pass: a marker once, and the creation time on the first pass. */
  lemma ConfigPassMeaning<D>(s: Status<D>, name: string, marker: D, listed: seq<Provider>, relisted: seq<Provider>,
      now: int)
    ensures var r := ConfigPass(s, name, marker, listed, relisted, now);
            if s.phase == Completed then r == s
            else
              && r.data == (if IsActive(relisted, name) && name !in s.data then s.data[name := marker] else s.data)
              && r.created == (if s.phase == New then Some(now) else s.created)
              && CompletedByCount(s, listed, now, r)
  {
    ActiveEntriesCounted(listed);
  }

  // ---------------------------------------------------------------------------------------
  // Single writes

  ghost predicate ConfigWrite<D>(a: Status<D>, b: Status<D>, name: string, marker: D, listed: seq<Provider>,
      relisted: seq<Provider>, now: int) {
    || b == Initialized(a, Some(now))
    || (IsActive(relisted, name) && name !in a.data && b == Contributed(a, name, marker))
    || (TestPasses(listed, a.data) && b == Finished(a, listed, now))
  }

  ghost predicate TargetWrite<D>(a: Status<D>, b: Status<D>, name: string, targets: D, listed: seq<Provider>,
      now: int) {
    && IsActive(listed, name)
    && (|| b == Initialized(a, None)
        || b == Contributed(a, name, targets)
        || (TestPasses(listed, a.data) && b == Finished(a, listed, now)))
  }

  lemma {:induction false} ActiveNamesAre(list: seq<Provider>)
    ensures forall n :: n in ActiveNames(list) <==> n in ActiveSet(list)
  {
    if list != [] {
      var front, last := list[..|list| - 1], list[|list| - 1];
      ActiveNamesAre(front);
      assert list == front + [last];
      assert ActiveSet(list) == ActiveSet(front) + (if last.active then {last.name} else {});
    }
  }

  /** Counting entries over-counts names exactly when an active name is listed twice. */
  lemma {:induction false} ActiveCount(list: seq<Provider>)
    ensures |ActiveSet(list)| <= |ActiveNames(list)|
    ensures |ActiveSet(list)| == |ActiveNames(list)| <==> Distinct(ActiveNames(list))
  {
    ActiveNamesAre(list);
    SetOfSeq(ActiveNames(list), ActiveSet(list));
  }

  lemma {:induction false} SetOfSeq<T(!new)>(s: seq<T>, keys: set<T>)
    requires forall x :: x in s <==> x in keys
    ensures |keys| <= |s|
    ensures |keys| == |s| <==> Distinct(s)
  {
    if s == [] {
      assert keys == {};
    } else {
      var front, last := s[..|s| - 1], s[|s| - 1];
      assert s == front + [last];
      if last in front {
        SetOfSeq(front, keys);
        var i :| 0 <= i < |front| && front[i] == last;
        assert s[i] == s[|s| - 1];
      } else {
        SetOfSeq(front, keys - {last});
        assert last in keys;
        assert Distinct(s) ==> Distinct(front);
        assert Distinct(front) ==> Distinct(s);
      }
    }
  }
}
