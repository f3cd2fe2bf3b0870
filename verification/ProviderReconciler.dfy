/** The operators' code against one shared object that other operators write at the same time. */
module ProviderReconciler {
  import opened Common
  import opened ProviderModel

  // ---------------------------------------------------------------------------------------
  // Provider list helpers

  method CheckProviderActive(list: seq<Provider>, name: string) returns (active: bool)
    ensures active <==> IsActive(list, name)
    ensures active <==>
        exists i :: 0 <= i < |list| && list[i].name == name && list[i].active && forall j :: 0 <= j < i ==>
            list[j].name != name
  {
    var found: Option<Provider> := None;
    for i := 0 to |list|
      invariant found.None?
      invariant forall j :: 0 <= j < i ==> list[j].name != name
    {
      if list[i].name == name {
        found := Some(list[i]);
        assert list[i] == Provider(name, list[i].active);
        break;
      }
    }
    active := found.Some? && found.value.active;
  }

  method CountActiveProviders(list: seq<Provider>) returns (count: nat, names: seq<string>)
    ensures names == ActiveNames(list) && count == |names|
    ensures count == |set i | 0 <= i < |list| && list[i].active|
  {
    ActiveEntriesCounted(list);
    count, names := 0, [];
    for i := 0 to |list|
      invariant names == ActiveNames(list[..i]) && count == |names|
    {
      assert list[..i + 1][..i] == list[..i];
      if list[i].active {
        count := count + 1;
        names := names + [list[i].name];
      }
    }
    assert list[..|list|] == list;
  }

  datatype Target = Target(clusterName: string, clusterAPIURL: string, ready: bool)

  datatype ClusterTarget = ClusterTarget(clusterName: string, clusterAPIURL: string)

  function Listed(t: Target): ClusterTarget { ClusterTarget(t.clusterName, t.clusterAPIURL) }

  ghost function Ready(targets: seq<Target>): seq<Target> {
    Filter((t: Target) => t.ready, targets)
  }

  ghost function ReadyTargets(targets: seq<Target>): seq<ClusterTarget> {
    var ready := Ready(targets);
    seq(|ready|, i requires 0 <= i < |ready| => Listed(ready[i]))
  }

  method BuildClusterTargets(targets: seq<Target>) returns (r: seq<ClusterTarget>)
    ensures r == ReadyTargets(targets)
  {
    r := [];
    for i := 0 to |targets|
      invariant r == ReadyTargets(targets[..i])
    {
      assert targets[..i + 1][..i] == targets[..i];
      if targets[i].ready {
        r := r + [ClusterTarget(targets[i].clusterName, targets[i].clusterAPIURL)];
      }
    }
    assert targets[..|targets|] == targets;
  }

  /** Those are exactly the ready targets, in order, each with its own name and URL. */
  lemma ReadyTargetsInOrder(targets: seq<Target>) returns (from: seq<nat>)
    ensures |from| == |ReadyTargets(targets)|
    ensures forall k :: 0 <= k < |from| ==>
              from[k] < |targets| && targets[from[k]].ready && ReadyTargets(targets)[k] ==
                  ClusterTarget(targets[from[k]].clusterName, targets[from[k]].clusterAPIURL)
    ensures forall k, l :: 0 <= k < l < |from| ==> from[k] < from[l]
    ensures forall i :: 0 <= i < |targets| && targets[i].ready ==> i in from
  {
    from := Positions((t: Target) => t.ready, targets);
    FilterSelects((t: Target) => t.ready, targets);
  }

  // ---------------------------------------------------------------------------------------
  // The shared object

  /**
   What the cluster does around one API call: whether the call fails, how many versions behind a
   read is, and which statuses other operators store just before the call takes effect.
   */
  datatype Call<D> = Call(fails: bool, lag: nat, others: seq<Status<D>>)

  datatype Written = Stored | Conflict | Rejected

  datatype Outcome = Done | Requeued | Failed

  ghost predicate FromOthers<D(!new)>(calls: nat -> Call<D>, s: Status<D>) {
    exists c: nat :: s in calls(c).others
  }

  /** A call that nothing disturbs. */
  ghost predicate Quiet<D>(call: Call<D>) {
    !call.fails && call.lag == 0 && call.others == []
  }

  class SharedObject<D(!new)> {
    /** Every stored status; the version is the position. */
    var history: seq<Status<D>>

    ghost predicate Valid() reads this { history != [] }

    ghost function Current(): Status<D>
      requires Valid()
      reads this
    {
      history[|history| - 1]
    }

    constructor (first: Status<D>)
      ensures Valid() && history == [first]
    {
      history := [first];
    }

    /** Other operators' writes land, then some stored version is read. */
    method Get(call: Call<D>) returns (at: Option<nat>)
      requires Valid()
      modifies this
      ensures Valid() && history == old(history) + call.others
      ensures at.None? <==> call.fails
      ensures at.Some? ==> at.value < |history|
      ensures at.Some? && call.lag == 0 ==> at.value == |history| - 1
    {
      history := history + call.others;
      if call.fails {
        return None;
      }
      at := Some(if call.lag < |history| then |history| - 1 - call.lag else 0);
    }

    /** Compare-and-set on the version that was read. */
    method UpdateStatus(at: nat, proposal: Status<D>, call: Call<D>) returns (w: Written)
      requires Valid() && at < |history|
      modifies this
      ensures Valid()
      ensures history == old(history) + call.others + if w.Stored? then [proposal] else []
      ensures w.Rejected? <==> call.fails
      ensures w.Stored? <==> !call.fails && call.others == [] && at + 1 == |old(history)|
    {
      history := history + call.others;
      if call.fails {
        return Rejected;
      }
      if at + 1 == |history| {
        history := history + [proposal];
        return Stored;
      }
      return Conflict;
    }
  }

  function OutcomeOf(w: Written): Outcome {
    match w
    case Stored => Done
    case Conflict => Requeued
    case Rejected => Failed
  }

  /** Every new version is another operator's or one legal write on the version stored just before it. */
  ghost predicate Extends<D(!new)>(h: seq<Status<D>>, h': seq<Status<D>>, calls: nat -> Call<D>,
      write: (Status<D>, Status<D>) -> bool) {
    && h != [] && h <= h'
    && forall i :: |h| <= i < |h'| ==> FromOthers(calls, h'[i]) || write(h'[i - 1], h'[i])
  }

  lemma ExtendsByOthers<D(!new)>(h: seq<Status<D>>, h': seq<Status<D>>, calls: nat -> Call<D>,
      write: (Status<D>, Status<D>) -> bool, c: nat)
    requires Extends(h, h', calls, write)
    ensures Extends(h, h' + calls(c).others, calls, write)
  {
    var more := h' + calls(c).others;
    forall i | |h| <= i < |more| ensures FromOthers(calls, more[i]) || write(more[i - 1], more[i]) {
      if i >= |h'| {
        assert more[i] in calls(c).others;
      }
    }
  }

  lemma ExtendsByOwn<D(!new)>(h: seq<Status<D>>, h': seq<Status<D>>, calls: nat -> Call<D>,
      write: (Status<D>, Status<D>) -> bool, s: Status<D>)
    requires Extends(h, h', calls, write) && write(h'[|h'| - 1], s)
    ensures Extends(h, h' + [s], calls, write)
  {
  }

  /** Get and then, when `proposal` differs, write: the shape of every stage below. */
  lemma StageExtends<D(!new)>(h: seq<Status<D>>, h': seq<Status<D>>, h'': seq<Status<D>>, calls: nat -> Call<D>,
      write: (Status<D>, Status<D>) -> bool, at: nat, proposal: Status<D>, w: Written, c: nat)
    requires Extends(h, h', calls, write)
    requires at < |h'| && write(h'[at], proposal)
    requires h'' == h' + calls(c).others + (if w.Stored? then [proposal] else [])
    requires w.Stored? ==> calls(c).others == [] && at + 1 == |h'|
    ensures Extends(h, h'', calls, write)
  {
    if w.Stored? {
      assert h'' == h' + [proposal];
      ExtendsByOwn(h, h', calls, write, proposal);
    } else {
      assert h'' == h' + calls(c).others;
      ExtendsByOthers(h, h', calls, write, c);
    }
  }

  ghost predicate AllQuiet<D(!new)>(calls: nat -> Call<D>) {
    forall c: nat :: Quiet(calls(c))
  }

  // ---------------------------------------------------------------------------------------
  // The provider-configuration controller

  ghost function ConfigWrites<D(!new)>(name: string, marker: D, listed: seq<Provider>, relisted: seq<Provider>,
      now: int): ((Status<D>, Status<D>) -> bool) {
    (a, b) => ConfigWrite(a, b, name, marker, listed, relisted, now)
  }

  method InitializeStatus<D(!new)>(obj: SharedObject<D>, at: nat, stamp: Option<int>, call: Call<D>)
    returns (w: Written)
    requires obj.Valid() && at < |obj.history|
    modifies obj
    ensures obj.Valid()
    ensures !old(obj.history[at]).phase.New? ==> w.Stored? && obj.history == old(obj.history)
    ensures old(obj.history[at]).phase.New? ==>
              && obj.history == old(obj.history) + call.others
                  + (if w.Stored? then [Initialized(old(obj.history[at]), stamp)] else [])
              && (w.Stored? ==> call.others == [] && at + 1 == |old(obj.history)|)
              && (Quiet(call) && at + 1 == |old(obj.history)| ==> w.Stored?)
  {
    var status := obj.history[at];
    w := Stored;
    if status.phase == New {
      status := status.(phase := Pending);
      if stamp.Some? {
        status := status.(created := stamp);
      }
      w := obj.UpdateStatus(at, status, call);
    }
  }

  method CheckCompletion<D(!new)>(obj: SharedObject<D>, at: nat, list: seq<Provider>, now: int, call: Call<D>)
    returns (w: Written)
    requires obj.Valid() && at < |obj.history|
    modifies obj
    ensures obj.Valid()
    ensures !TestPasses(list, old(obj.history[at]).data) ==> w.Stored? && obj.history == old(obj.history)
    ensures TestPasses(list, old(obj.history[at]).data) ==>
              && obj.history == old(obj.history) + call.others
                  + (if w.Stored? then [Finished(old(obj.history[at]), list, now)] else [])
              && (w.Stored? ==> call.others == [] && at + 1 == |old(obj.history)|)
              && (Quiet(call) && at + 1 == |old(obj.history)| ==> w.Stored?)
  {
    var status := obj.history[at];
    var count, _ := CountActiveProviders(list);
    w := Stored;
    if count > 0 && |status.data| >= count {
      status := status.(phase := Completed, completed := Some(now));
      w := obj.UpdateStatus(at, status, call);
    }
  }

  /** One stage: a fresh read, then initialisation. */
  method InitStage<D(!new)>(obj: SharedObject<D>, ghost before: seq<Status<D>>, stamp: Option<int>,
      calls: nat -> Call<D>, c: nat, ghost write: (Status<D>, Status<D>) -> bool) returns (o: Outcome)
    requires obj.Valid() && Extends(before, obj.history, calls, write)
    requires forall a: Status<D> :: a.phase.New? ==> write(a, Initialized(a, stamp))
    modifies obj
    ensures obj.Valid() && Extends(before, obj.history, calls, write)
    ensures AllQuiet(calls) ==> o.Done? && obj.Current() == Initialized(old(obj.Current()), stamp)
    ensures calls(c).fails ==> o.Failed?
  {
    var at := obj.Get(calls(c));
    ExtendsByOthers(before, old(obj.history), calls, write, c);
    if at.None? {
      return Failed;
    }
    ghost var h := obj.history;
    var w := InitializeStatus(obj, at.value, stamp, calls(c + 1));
    if h[at.value].phase.New? {
      StageExtends(before, h, obj.history, calls, write, at.value, Initialized(h[at.value], stamp), w, c + 1);
    }
    o := OutcomeOf(w);
  }

  /** One stage: a fresh read, then the completion test. */
  method CompletionStage<D(!new)>(obj: SharedObject<D>, ghost before: seq<Status<D>>, list: seq<Provider>, now: int,
      calls: nat -> Call<D>, c: nat, ghost write: (Status<D>, Status<D>) -> bool) returns (o: Outcome)
    requires obj.Valid() && Extends(before, obj.history, calls, write)
    requires forall a: Status<D> :: TestPasses(list, a.data) ==> write(a, Finished(a, list, now))
    modifies obj
    ensures obj.Valid() && Extends(before, obj.history, calls, write)
    ensures AllQuiet(calls) ==> o.Done? && obj.Current() == Finished(old(obj.Current()), list, now)
    ensures calls(c).fails ==> o.Failed?
  {
    var at := obj.Get(calls(c));
    ExtendsByOthers(before, old(obj.history), calls, write, c);
    if at.None? {
      return Failed;
    }
    ghost var h := obj.history;
    var w := CheckCompletion(obj, at.value, list, now, calls(c + 1));
    if TestPasses(list, h[at.value].data) {
      StageExtends(before, h, obj.history, calls, write, at.value, Finished(h[at.value], list, now), w, c + 1);
    }
    o := OutcomeOf(w);
  }

  /** One stage: a fresh read, then the operator's own key, unless `once` and it is already there. */
  method ContributeStage<D(!new)>(obj: SharedObject<D>, ghost before: seq<Status<D>>, name: string, d: D, once: bool,
      calls: nat -> Call<D>, c: nat, ghost write: (Status<D>, Status<D>) -> bool) returns (o: Outcome)
    requires obj.Valid() && Extends(before, obj.history, calls, write)
    requires forall a: Status<D> :: !(once && name in a.data) ==> write(a, Contributed(a, name, d))
    modifies obj
    ensures obj.Valid() && Extends(before, obj.history, calls, write)
    ensures AllQuiet(calls) ==>
              o.Done? && obj.Current() == var s := old(obj.Current()); if once
                  && name in s.data then s else Contributed(s, name, d)
    ensures AllQuiet(calls) ==>
        var s, t := old(obj.Current()), obj.Current();
        t == s.(data := if once && name in s.data then s.data else s.data[name := d])
    ensures !once ==> (o.Failed? <==> calls(c).fails || calls(c + 1).fails)
    ensures !once && o.Done? ==> calls(c + 1).others == []
  {
    var at := obj.Get(calls(c));
    ExtendsByOthers(before, old(obj.history), calls, write, c);
    if at.None? {
      return Failed;
    }
    var status := obj.history[at.value];
    if once && name in status.data {
      return Done;
    }
    ghost var h := obj.history;
    var w := obj.UpdateStatus(at.value, status.(data := status.data[name := d]), calls(c + 1));
    StageExtends(before, h, obj.history, calls, write, at.value, Contributed(h[at.value], name, d), w, c + 1);
    o := OutcomeOf(w);
  }

  /** `listFails` and `relistFails`: the two provider listings may fail. */
  method ReconcileConfig<D(!new)>(obj: SharedObject<D>, name: string, marker: D, listed: seq<Provider>,
      relisted: seq<Provider>, listFails: bool, relistFails: bool, now: int, calls: nat -> Call<D>) returns (o: Outcome)
    requires obj.Valid()
    modifies obj
    ensures obj.Valid()
    ensures Extends(old(obj.history), obj.history, calls, ConfigWrites(name, marker, listed, relisted, now))
    ensures AllQuiet(calls) && !listFails && !relistFails ==>
              o.Done? && obj.Current() == ConfigPass(old(obj.Current()), name, marker, listed, relisted, now)
    ensures AllQuiet(calls) && (listFails || relistFails) && !old(obj.Current()).phase.Completed? ==>
              o.Failed? && obj.Current() == if listFails then old(obj.Current())
                  else Initialized(old(obj.Current()), Some(now))
  {
    ghost var before := obj.history;
    ghost var write := ConfigWrites(name, marker, listed, relisted, now);
    var at := obj.Get(calls(0));
    ExtendsByOthers(before, before, calls, write, 0);
    if at.None? {
      return Failed;
    }
    if obj.history[at.value].phase == Completed {
      return Done;
    }
    if listFails {
      return Failed;
    }
    assert forall a: Status<D> :: a.phase.New? ==> write(a, Initialized(a, Some(now)));
    o := InitStage(obj, before, Some(now), calls, 1, write);
    if o != Done {
      return;
    }
    if relistFails {
      return Failed;
    }
    var active := CheckProviderActive(relisted, name);
    if active {
      o := ContributeStage(obj, before, name, marker, true, calls, 3, write);
      if o != Done {
        return;
      }
    }
    o := CompletionStage(obj, before, listed, now, calls, 5, write);
  }

  // ---------------------------------------------------------------------------------------
  // The target-request controller

  ghost function TargetWrites<D(!new)>(name: string, targets: D, listed: seq<Provider>,
      now: int): ((Status<D>, Status<D>) -> bool) {
    (a, b) => TargetWrite(a, b, name, targets, listed, now)
  }

  /** The three writing stages of an active operator. */
  method ContributeTargets<D(!new)>(obj: SharedObject<D>, ghost before: seq<Status<D>>, name: string, targets: D,
      listed: seq<Provider>, targetsFail: bool, secretFails: bool, now: int, calls: nat -> Call<D>) returns (o: Outcome)
    requires obj.Valid() && IsActive(listed, name)
    requires Extends(before, obj.history, calls, TargetWrites(name, targets, listed, now))
    modifies obj
    ensures obj.Valid() && Extends(before, obj.history, calls, TargetWrites(name, targets, listed, now))
    ensures AllQuiet(calls) && !targetsFail && !secretFails ==>
              o.Done? && obj.Current() == Finished(Contributed(Initialized(old(obj.Current()), None), name, targets),
                  listed, now)
    ensures AllQuiet(calls) && !targetsFail && secretFails ==>
              o.Failed? && obj.Current() == Contributed(Initialized(old(obj.Current()), None), name, targets)
    ensures AllQuiet(calls) && targetsFail ==> o.Failed? && obj.Current() == Initialized(old(obj.Current()), None)
    ensures AllQuiet(calls) && !targetsFail ==>
        obj.Current().data == old(obj.Current()).data[name := targets]
    ensures o.Done? ==> calls(4).others == [] && forall c :: c in {1, 3, 4, 5} ==> !calls(c).fails
  {
    ghost var write := TargetWrites(name, targets, listed, now);
    o := InitStage(obj, before, None, calls, 1, write);
    if o != Done {
      return;
    }
    if targetsFail {
      return Failed;
    }
    o := ContributeStage(obj, before, name, targets, false, calls, 3, write);
    if o != Done {
      return;
    }
    if secretFails {
      return Failed;
    }
    o := CompletionStage(obj, before, listed, now, calls, 5, write);
  }

  /** The two listings may fail, and so may the write of the kubeconfig Secret after the contribution. */
  method ReconcileTargetRequest(obj: SharedObject<seq<ClusterTarget>>, name: string, targets: seq<Target>,
      listed: seq<Provider>, listFails: bool, targetsFail: bool, secretFails: bool, now: int,
      calls: nat -> Call<seq<ClusterTarget>>)
    returns (o: Outcome)
    requires obj.Valid()
    modifies obj
    ensures obj.Valid()
    ensures Extends(old(obj.history), obj.history, calls, TargetWrites(name, ReadyTargets(targets), listed, now))
    ensures AllQuiet(calls) && !listFails && !targetsFail && !secretFails ==>
              o.Done? && obj.Current() == TargetPass(old(obj.Current()), name, ReadyTargets(targets), listed, now)
    ensures AllQuiet(calls) && !listFails && !targetsFail && !secretFails ==>
        var s, t := old(obj.Current()), obj.Current();
        if s.phase == Completed || !IsActive(listed, name) then t == s
        else
          && t.data == s.data[name := ReadyTargets(targets)] && t.created == s.created
          && CompletedByCount(s, listed, now, t)
    ensures AllQuiet(calls) && listFails ==>
        obj.Current() == old(obj.Current()) && (old(obj.Current()).phase != Completed ==> o == Failed)
  {
    TargetPassMeaning(obj.Current(), name, ReadyTargets(targets), listed, now);
    var clusterTargets := BuildClusterTargets(targets);
    ghost var before := obj.history;
    var at := obj.Get(calls(0));
    ExtendsByOthers(before, before, calls, TargetWrites(name, clusterTargets, listed, now), 0);
    if at.None? {
      return Failed;
    }
    if obj.history[at.value].phase == Completed {
      return Done;
    }
    if listFails {
      return Failed;
    }
    var active := CheckProviderActive(listed, name);
    if !active {
      return Done;
    }
    o := ContributeTargets(obj, before, name, clusterTargets, listed, targetsFail, secretFails, now, calls);
  }
}
