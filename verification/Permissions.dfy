/** Group permissions: union of grants, filtering, and the checks built on them. */
module Permissions {
  import opened Common

  type Action = string
  type Url = string

  /** A group's cluster permissions: the actions it lists for each cluster URL. */
  type Group = map<Url, seq<Action>>

  datatype ClusterTarget = ClusterTarget(name: string, url: Url)

  datatype Job = Job(id: string, url: Url)

  /** The simple definition: some group lists the action for that URL. */
  predicate Grants(groups: seq<Group>, url: Url, action: Action) {
    exists g :: g in groups && url in g && action in g[url]
  }

  predicate Mentions(groups: seq<Group>, url: Url) {
    exists g :: g in groups && url in g
  }

  function SetOf<T>(s: seq<T>): set<T> {
    set x | x in s
  }

  function At(all: map<Url, set<Action>>, url: Url): set<Action> {
    if url in all then all[url] else {}
  }

  function AtWith(all: map<Url, set<Action>>, g: Group, url: Url): set<Action> {
    At(all, url) + (if url in g then SetOf(g[url]) else {})
  }

  method AddActions(have: set<Action>, actions: seq<Action>) returns (r: set<Action>)
    ensures r == have + SetOf(actions)
  {
    r := have;
    for k := 0 to |actions|
      invariant r == have + SetOf(actions[..k])
    {
      r := r + {actions[k]};
    }
    assert actions[..|actions|] == actions;
  }

  /** One group's permissions are added, cluster by cluster in map order and action by action. */
  method AddGroup(all: map<Url, set<Action>>, g: Group) returns (r: map<Url, set<Action>>)
    ensures r.Keys == all.Keys + g.Keys
    ensures forall url :: url in r ==> r[url] == AtWith(all, g, url)
  {
    r := all;
    var remaining := g.Keys;
    while remaining != {}
      invariant remaining <= g.Keys && r.Keys == all.Keys + (g.Keys - remaining)
      invariant forall u :: u in remaining ==> At(r, u) == At(all, u)
      invariant forall u :: u in r && u !in remaining ==> r[u] == AtWith(all, g, u)
    {
      var url :| url in remaining;
      remaining := remaining - {url};
      if url !in r {
        r := r[url := {}];
      }
      assert r[url] == At(all, url);
      var added := AddActions(r[url], g[url]);
      r := r[url := added];
    }
  }

  /** `all` is the union of the groups' grants. */
  ghost predicate Aggregates(all: map<Url, set<Action>>, groups: seq<Group>) {
    && (forall url :: url in all <==> Mentions(groups, url))
    && (forall url, a :: url in all ==> (a in all[url] <==> Grants(groups, url, a)))
  }

  lemma AggregatesMore(all: map<Url, set<Action>>, groups: seq<Group>, g: Group, all': map<Url, set<Action>>)
    requires Aggregates(all, groups)
    requires all'.Keys == all.Keys + g.Keys
    requires forall url :: url in all' ==> all'[url] == AtWith(all, g, url)
    ensures Aggregates(all', groups + [g])
  {
    var more := groups + [g];
    assert forall h :: h in more <==> h in groups || h == g;
    assert forall url :: Mentions(more, url) <==> Mentions(groups, url) || url in g;
    assert forall url, a :: Grants(more, url, a) <==> Grants(groups, url, a) || (url in g && a in g[url]);
  }

  method ListActions(actions: set<Action>) returns (r: seq<Action>)
    ensures Enumerates(r, actions)
  {
    r := [];
    var remaining := actions;
    while remaining != {}
      invariant remaining <= actions && Enumerates(r, actions - remaining)
    {
      var a :| a in remaining;
      remaining := remaining - {a};
      r := r + [a];
    }
    assert actions - {} == actions;
  }

  method ListAll(all: map<Url, set<Action>>) returns (r: map<Url, seq<Action>>)
    ensures r.Keys == all.Keys
    ensures forall url :: url in r ==> Enumerates(r[url], all[url])
  {
    r := map[];
    var remaining := all.Keys;
    while remaining != {}
      invariant remaining <= all.Keys && r.Keys == all.Keys - remaining
      invariant forall url :: url in r ==> Enumerates(r[url], all[url])
    {
      var url :| url in remaining;
      var actions := ListActions(all[url]);
      remaining := remaining - {url};
      r := r[url := actions];
    }
  }

  /** The aggregate agrees with the simple definition and lists no action twice. */
  method AggregateClusterPermissions(groups: seq<Group>) returns (r: map<Url, seq<Action>>)
    ensures forall url :: url in r <==> Mentions(groups, url)
    ensures forall url, a :: url in r ==> (a in r[url] <==> Grants(groups, url, a))
    ensures forall url :: url in r ==> Distinct(r[url])
  {
    var all: map<Url, set<Action>> := map[];
    for i := 0 to |groups|
      invariant Aggregates(all, groups[..i])
    {
      var more := AddGroup(all, groups[i]);
      AggregatesMore(all, groups[..i], groups[i], more);
      assert groups[..i + 1] == groups[..i] + [groups[i]];
      all := more;
    }
    assert groups[..|groups|] == groups;
    r := ListAll(all);
  }

  method HasAction(actions: seq<Action>, action: Action) returns (b: bool)
    ensures b <==> action in actions
  {
    for i := 0 to |actions|
      invariant action !in actions[..i]
    {
      if actions[i] == action {
        return true;
      }
    }
    b := false;
  }

  /** Looking an absent URL up in the aggregate gives no actions. */
  method CanPerformAction(groups: seq<Group>, url: Url, action: Action) returns (b: bool)
    ensures b <==> Grants(groups, url, action)
    ensures b <==> exists g :: g in groups && url in g && action in g[url]
  {
    var permissions := AggregateClusterPermissions(groups);
    if url !in permissions {
      return false;
    }
    b := HasAction(permissions[url], action);
  }

  // ---------------------------------------------------------------------------------------
  // Filtering clusters

  ghost function Permitted(groups: seq<Group>, action: Action): (ClusterTarget -> bool) {
    (c: ClusterTarget) => Grants(groups, c.url, action)
  }

  /** Each provider keeps its permitted clusters, in order; a provider without any is dropped. */
  ghost predicate FilteredBy(groups: seq<Group>, data: map<string, seq<ClusterTarget>>, action: Action,
      r: map<string, seq<ClusterTarget>>) {
    && (forall p :: p in r <==> p in data && Filter(Permitted(groups, action), data[p]) != [])
    && (forall p :: p in r ==> r[p] == Filter(Permitted(groups, action), data[p]))
  }

  method FilterClusters(groups: seq<Group>, permissions: map<Url, seq<Action>>, clusters: seq<ClusterTarget>,
      action: Action) returns (r: seq<ClusterTarget>)
    requires forall url :: url in permissions <==> Mentions(groups, url)
    requires forall url, a :: url in permissions ==> (a in permissions[url] <==> Grants(groups, url, a))
    ensures r == Filter(Permitted(groups, action), clusters)
  {
    r := [];
    for i := 0 to |clusters|
      invariant r == Filter(Permitted(groups, action), clusters[..i])
    {
      assert clusters[..i + 1][..i] == clusters[..i];
      var url := clusters[i].url;
      var has := HasAction(if url in permissions then permissions[url] else [], action);
      if has {
        r := r + [clusters[i]];
      }
    }
    assert clusters[..|clusters|] == clusters;
  }

  method FilterClustersByPermission(groups: seq<Group>, data: map<string, seq<ClusterTarget>>, action: Action)
    returns (r: map<string, seq<ClusterTarget>>)
    ensures FilteredBy(groups, data, action, r)
    ensures forall p :: p in r <==> p in data && exists c :: c in data[p] && Grants(groups, c.url, action)
    ensures forall p, c :: p in r ==> (c in r[p] <==> c in data[p] && Grants(groups, c.url, action))
  {
    FilteredMeaning(groups, data, action);
    r := map[];
    if |groups| == 0 {
      NothingWithoutGroups(groups, data, action);
      return;
    }
    var permissions := AggregateClusterPermissions(groups);
    var remaining := data.Keys;
    while remaining != {}
      invariant remaining <= data.Keys
      invariant forall p :: p in r <==> p in data.Keys - remaining && Filter(Permitted(groups, action), data[p]) != []
      invariant forall p :: p in r ==> r[p] == Filter(Permitted(groups, action), data[p])
    {
      var p :| p in remaining;
      var allowed := FilterClusters(groups, permissions, data[p], action);
      remaining := remaining - {p};
      if |allowed| > 0 {
        r := r[p := allowed];
      }
    }
  }

  /** A filtered list holds the permitted clusters, and none are left exactly when none is permitted. */
  lemma FilteredMeaning(groups: seq<Group>, data: map<string, seq<ClusterTarget>>, action: Action)
    ensures forall p, c :: p in data ==>
        (c in Filter(Permitted(groups, action), data[p]) <==> c in data[p] && Grants(groups, c.url, action))
    ensures forall p :: p in data ==>
        (Filter(Permitted(groups, action), data[p]) != [] <==>
         exists c :: c in data[p] && Grants(groups, c.url, action))
  {
    forall p | p in data
      ensures forall c :: c in Filter(Permitted(groups, action), data[p]) <==>
                  c in data[p] && Grants(groups, c.url, action)
      ensures Filter(Permitted(groups, action), data[p]) != [] <==>
                  exists c :: c in data[p] && Grants(groups, c.url, action)
    {
      var kept := Filter(Permitted(groups, action), data[p]);
      FilterMembers(Permitted(groups, action), data[p]);
      if kept != [] {
        assert kept[0] in kept;
      }
    }
  }

  lemma NothingWithoutGroups(groups: seq<Group>, data: map<string, seq<ClusterTarget>>, action: Action)
    requires groups == []
    ensures forall p :: p in data ==> Filter(Permitted(groups, action), data[p]) == []
  {
    forall p | p in data ensures Filter(Permitted(groups, action), data[p]) == [] {
      FilterNone(Permitted(groups, action), data[p]);
    }
  }

  // ---------------------------------------------------------------------------------------
  // Runs and their jobs

  /** Jobs without a URL are skipped. */
  ghost function JobPermitted(groups: seq<Group>, action: Action): (Job -> bool) {
    (j: Job) => j.url != "" && Grants(groups, j.url, action)
  }

  method CheckScenarioRunGroupAccess(groups: seq<Group>, jobs: seq<Job>, action: Action) returns (b: bool)
    ensures b <==> exists i :: 0 <= i < |jobs| && JobPermitted(groups, action)(jobs[i])
    ensures b <==> exists i :: 0 <= i < |jobs| && jobs[i].url != "" && Grants(groups, jobs[i].url, action)
  {
    if |groups| == 0 {
      return false;
    }
    for i := 0 to |jobs|
      invariant forall k :: 0 <= k < i ==> !JobPermitted(groups, action)(jobs[k])
    {
      if jobs[i].url != "" {
        var can := CanPerformAction(groups, jobs[i].url, action);
        if can {
          return true;
        }
      }
    }
    b := false;
  }

  method CheckScenarioRunCancelAccess(admin: bool, groups: seq<Group>, jobs: seq<Job>, cancel: Action) returns (b: bool)
    ensures b <==> admin || (groups != [] && forall i :: 0 <= i < |jobs| ==>
        jobs[i].url == "" || Grants(groups, jobs[i].url, cancel))
  {
    if admin {
      return true;
    }
    if |groups| == 0 {
      return false;
    }
    for i := 0 to |jobs|
      invariant forall k :: 0 <= k < i ==> jobs[k].url == "" || JobPermitted(groups, cancel)(jobs[k])
    {
      if jobs[i].url != "" {
        var can := CanPerformAction(groups, jobs[i].url, cancel);
        if !can {
          return false;
        }
      }
    }
    b := true;
  }

  method FilterJobsByPermission(groups: seq<Group>, jobs: seq<Job>, action: Action) returns (r: seq<Job>)
    ensures r == Filter(JobPermitted(groups, action), jobs)
    ensures forall j :: j in r <==> j in jobs && j.url != "" && Grants(groups, j.url, action)
  {
    FilterMembers(JobPermitted(groups, action), jobs);
    r := [];
    for i := 0 to |jobs|
      invariant r == Filter(JobPermitted(groups, action), jobs[..i])
    {
      assert jobs[..i + 1][..i] == jobs[..i];
      if jobs[i].url != "" {
        var can := CanPerformAction(groups, jobs[i].url, action);
        if can {
          r := r + [jobs[i]];
        }
      }
    }
    assert jobs[..|jobs|] == jobs;
  }

  /** A run passes the group check exactly when filtering leaves some of its jobs. */
  lemma AccessAgreesWithFiltering(groups: seq<Group>, jobs: seq<Job>, action: Action)
    ensures (exists i :: 0 <= i < |jobs| && JobPermitted(groups, action)(jobs[i])) <==>
        Filter(JobPermitted(groups, action), jobs) != []
    ensures Selects(JobPermitted(groups, action), jobs, Filter(JobPermitted(groups, action), jobs),
        Positions(JobPermitted(groups, action), jobs))
  {
    FilterNone(JobPermitted(groups, action), jobs);
    FilterSelects(JobPermitted(groups, action), jobs);
  }
}
