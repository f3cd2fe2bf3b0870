/** Permission to start a run: cluster names are resolved to URLs through a map built in map order. */
module PermissionRuns {
  import opened Common
  import opened Permissions

  type Targets = map<string, seq<ClusterTarget>>

  /** The last entry with that name decides. */
  function LastUrl(clusters: seq<ClusterTarget>, name: string): Option<Url> {
    if clusters == [] then None
    else if clusters[|clusters| - 1].name == name then Some(clusters[|clusters| - 1].url)
    else LastUrl(clusters[..|clusters| - 1], name)
  }

  /** The position of the last entry with the name. */
  ghost predicate LastWithName(clusters: seq<ClusterTarget>, i: nat, name: string) {
    i < |clusters| && clusters[i].name == name && forall j :: i < j < |clusters| ==> clusters[j].name != name
  }

  /** The URL found is that of the last entry with the name; there is none exactly when no entry has it. */
  lemma {:induction false} LastUrlIsLast(clusters: seq<ClusterTarget>, name: string) returns (i: nat)
    ensures LastUrl(clusters, name).Some? ==>
        LastWithName(clusters, i, name) && LastUrl(clusters, name) == Some(clusters[i].url)
    ensures LastUrl(clusters, name).None? ==> forall j :: 0 <= j < |clusters| ==> clusters[j].name != name
  {
    i := 0;
    if clusters != [] {
      var n := |clusters| - 1;
      i := LastUrlIsLast(clusters[..n], name);
      assert forall j :: 0 <= j < n ==> clusters[..n][j] == clusters[j];
      if clusters[n].name == name {
        i := n;
      }
    }
  }

  /** The URL a name resolves to when the providers are visited in `order`. */
  function Resolved(data: Targets, order: seq<string>, name: string): Option<Url>
    requires forall p :: p in order ==> p in data
  {
    if order == [] then None
    else
      var last := order[|order| - 1];
      var url := LastUrl(data[last], name);
      if url.Some? then url else Resolved(data, order[..|order| - 1], name)
  }

  /** Later entries overwrite earlier ones. */
  method AddClusters(m: map<string, Url>, clusters: seq<ClusterTarget>) returns (r: map<string, Url>)
    ensures forall name :: name in r <==> name in m || LastUrl(clusters, name).Some?
    ensures forall name :: name in r ==> r[name] == if LastUrl(clusters, name).Some?
        then LastUrl(clusters, name).value else m[name]
  {
    r := m;
    for i := 0 to |clusters|
      invariant forall name :: name in r <==> name in m || LastUrl(clusters[..i], name).Some?
      invariant forall name :: name in r ==> r[name] == if LastUrl(clusters[..i], name).Some?
          then LastUrl(clusters[..i], name).value else m[name]
    {
      assert clusters[..i + 1][..i] == clusters[..i];
      r := r[clusters[i].name := clusters[i].url];
    }
    assert clusters[..|clusters|] == clusters;
  }

  /** The map holds what the names resolve to, and nothing else. */
  ghost predicate Tabulates(m: map<string, Url>, data: Targets, order: seq<string>)
    requires forall p :: p in order ==> p in data
  {
    && (forall name :: name in m <==> Resolved(data, order, name).Some?)
    && (forall name :: name in m ==> m[name] == Resolved(data, order, name).value)
  }

  method BuildClusterAPIURLMap(data: Targets) returns (m: map<string, Url>)
    ensures exists order :: Enumerates(order, data.Keys) && Tabulates(m, data, order)
  {
    m := map[];
    ghost var order: seq<string> := [];
    var remaining := data.Keys;
    while remaining != {}
      invariant remaining <= data.Keys && Enumerates(order, data.Keys - remaining)
      invariant Tabulates(m, data, order)
    {
      var p :| p in remaining;
      remaining := remaining - {p};
      m := AddClusters(m, data[p]);
      assert (order + [p])[..|order|] == order;
      order := order + [p];
    }
    assert data.Keys - {} == data.Keys;
    assert Enumerates(order, data.Keys);
  }

  datatype Verdict = Allowed | NoGroups | UnknownCluster(name: string) | Denied(name: string)

  ghost predicate Selected(selection: map<string, seq<string>>, name: string) {
    exists p :: p in selection && name in selection[p]
  }

  ghost predicate NamePasses(groups: seq<Group>, data: Targets, order: seq<string>, run: Action, name: string)
    requires forall p :: p in order ==> p in data
  {
    var url := Resolved(data, order, name);
    url.Some? && Grants(groups, url.value, run)
  }

  /** What the check decides when the target data is visited in `order`. */
  ghost predicate Passes(groups: seq<Group>, selection: map<string, seq<string>>, data: Targets, order: seq<string>,
      run: Action)
    requires forall p :: p in order ==> p in data
  {
    groups != [] && forall name :: Selected(selection, name) ==> NamePasses(groups, data, order, run, name)
  }

  ghost predicate Explained(v: Verdict, groups: seq<Group>, selection: map<string, seq<string>>, data: Targets,
      order: seq<string>, run: Action)
    requires forall p :: p in order ==> p in data
  {
    match v
    case Allowed => Passes(groups, selection, data, order, run)
    case NoGroups => groups == []
    case UnknownCluster(name) => Selected(selection, name) && Resolved(data, order, name).None?
    case Denied(name) =>
      var url := Resolved(data, order, name);
      Selected(selection, name) && url.Some? && !Grants(groups, url.value, run)
  }

  /** One provider's selected names, with the aggregate looked up once per name. */
  method CheckNames(groups: seq<Group>, names: seq<string>, permissions: map<Url, seq<Action>>, urls: map<string,
      Url>, run: Action) returns (v: Verdict)
    requires forall url :: url in permissions <==> Mentions(groups, url)
    requires forall url, a :: url in permissions ==> (a in permissions[url] <==> Grants(groups, url, a))
    ensures !v.NoGroups?
    ensures v.Allowed? ==> forall n :: n in names ==> n in urls && Grants(groups, urls[n], run)
    ensures v.UnknownCluster? ==> v.name in names && v.name !in urls
    ensures v.Denied? ==> v.name in names && v.name in urls && !Grants(groups, urls[v.name], run)
  {
    for i := 0 to |names|
      invariant forall k :: 0 <= k < i ==> names[k] in urls && Grants(groups, urls[names[k]], run)
    {
      var name := names[i];
      if name !in urls {
        return UnknownCluster(name);
      }
      var url := urls[name];
      var has := HasAction(if url in permissions then permissions[url] else [], run);
      if !has {
        return Denied(name);
      }
    }
    v := Allowed;
  }

  /** Both map iterations, over the target data and over the selection, are in any order. */
  method ValidateScenarioRunAccess(groups: seq<Group>, selection: map<string, seq<string>>, data: Targets,
      run: Action) returns (v: Verdict)
    ensures exists order :: Enumerates(order, data.Keys) && Explained(v, groups, selection, data, order, run)
    ensures v == NoGroups <==> groups == []
  {
    if |groups| == 0 {
      ghost var order := EnumerationOf(data.Keys);
      assert Explained(NoGroups, groups, selection, data, order, run);
      return NoGroups;
    }
    var permissions := AggregateClusterPermissions(groups);
    var urls := BuildClusterAPIURLMap(data);
    ghost var order :| Enumerates(order, data.Keys) && Tabulates(urls, data, order);
    var remaining := selection.Keys;
    while remaining != {}
      invariant remaining <= selection.Keys
      invariant forall p, n :: p in selection && p !in remaining && n in selection[p] ==>
          NamePasses(groups, data, order, run, n)
    {
      var p :| p in remaining;
      v := CheckNames(groups, selection[p], permissions, urls, run);
      if v != Allowed {
        assert Explained(v, groups, selection, data, order, run);
        return;
      }
      remaining := remaining - {p};
    }
    v := Allowed;
    assert Explained(v, groups, selection, data, order, run);
  }

  /** A verdict is explained in one iteration order only by what that order decides. */
  lemma AllowedExactlyWhenPasses(v: Verdict, groups: seq<Group>, selection: map<string, seq<string>>, data: Targets,
      order: seq<string>, run: Action)
    requires forall p :: p in order ==> p in data
    requires Explained(v, groups, selection, data, order, run)
    ensures v.Allowed? <==> Passes(groups, selection, data, order, run)
  {
    match v
    case Allowed =>
    case NoGroups =>
    case UnknownCluster(name) => assert !NamePasses(groups, data, order, run, name);
    case Denied(name) => assert !NamePasses(groups, data, order, run, name);
  }

  // ---------------------------------------------------------------------------------------
  // Independence of the iteration order

  /** The name is listed, and every provider listing it ends with a permitted URL. */
  ghost predicate SoundName(groups: seq<Group>, data: Targets, run: Action, name: string) {
    && (exists p :: p in data && LastUrl(data[p], name).Some?)
    && (forall p :: p in data && LastUrl(data[p], name).Some? ==> Grants(groups, LastUrl(data[p], name).value, run))
  }

  ghost predicate AlwaysPasses(groups: seq<Group>, selection: map<string, seq<string>>, data: Targets, run: Action) {
    forall order :: Enumerates(order, data.Keys) ==> Passes(groups, selection, data, order, run)
  }

  /** A name resolves to what some visited provider lists last, if any lists it. */
  lemma {:induction false} ResolvedByProvider(data: Targets, order: seq<string>, name: string)
    requires forall p :: p in order ==> p in data
    ensures Resolved(data, order, name).Some? <==> exists p :: p in order && LastUrl(data[p], name).Some?
    ensures Resolved(data, order, name).Some? ==> exists p ::
        p in order
        && LastUrl(data[p], name) == Resolved(data, order, name)
  {
    if order != [] {
      var front, last := order[..|order| - 1], order[|order| - 1];
      assert order == front + [last];
      assert last in order;
      ResolvedByProvider(data, front, name);
    }
  }

  /** An iteration order that visits `p` last. */
  lemma LastVisited(data: Targets, p: string, name: string) returns (order: seq<string>)
    requires p in data && LastUrl(data[p], name).Some?
    ensures Enumerates(order, data.Keys) && Resolved(data, order, name) == LastUrl(data[p], name)
  {
    order := EnumerationOf(data.Keys - {p}) + [p];
  }

  /** The check passes in every iteration order exactly when every selected name is sound. */
  lemma AlwaysPassesIff(groups: seq<Group>, selection: map<string, seq<string>>, data: Targets, run: Action)
    ensures AlwaysPasses(groups, selection, data, run) <==>
      groups != [] && forall name :: Selected(selection, name) ==> SoundName(groups, data, run, name)
  {
    if AlwaysPasses(groups, selection, data, run) {
      var some := EnumerationOf(data.Keys);
      assert Passes(groups, selection, data, some, run);
      forall name | Selected(selection, name) ensures SoundName(groups, data, run, name) {
        assert NamePasses(groups, data, some, run, name);
        ResolvedByProvider(data, some, name);
        forall p | p in data && LastUrl(data[p], name).Some? ensures Grants(groups, LastUrl(data[p], name).value, run) {
          var order := LastVisited(data, p, name);
          assert Passes(groups, selection, data, order, run);
          assert NamePasses(groups, data, order, run, name);
        }
      }
    }
    if groups != [] && forall name :: Selected(selection, name) ==> SoundName(groups, data, run, name) {
      forall order | Enumerates(order, data.Keys) ensures Passes(groups, selection, data, order, run) {
        forall name | Selected(selection, name) ensures NamePasses(groups, data, order, run, name) {
          ResolvedByProvider(data, order, name);
          assert SoundName(groups, data, run, name);
        }
      }
    }
  }

  /** A failing input: two providers list the name, one of them with a URL on which running is not permitted. */
  lemma OrderDecides(groups: seq<Group>, run: Action, name: string, permitted: Url, other: Url)
    requires Grants(groups, permitted, run) && !Grants(groups, other, run)
    ensures var data: Targets := map["p" := [ClusterTarget(name, permitted)], "q" := [ClusterTarget(name, other)]];
            var selection: map<string, seq<string>> := map["p" := [name]];
            && !AlwaysPasses(groups, selection, data, run)
            && Passes(groups, selection, data, ["q", "p"], run) && !Passes(groups, selection, data, ["p", "q"], run)
  {
    var data: Targets := map["p" := [ClusterTarget(name, permitted)], "q" := [ClusterTarget(name, other)]];
    var selection: map<string, seq<string>> := map["p" := [name]];
    assert selection["p"][0] == name && Selected(selection, name);
    assert LastUrl(data["p"], name) == Some(permitted) && LastUrl(data["q"], name) == Some(other);
    assert ["q", "p"][..1] == ["q"] && ["p", "q"][..1] == ["p"];
    assert Resolved(data, ["q", "p"], name) == Some(permitted) && Resolved(data, ["p", "q"], name) == Some(other);
    assert !NamePasses(groups, data, ["p", "q"], run, name);
    assert Enumerates(["p", "q"], data.Keys);
    assert groups != [];
    forall n | Selected(selection, n) ensures n == name {
    }
  }

  /** Every selected name is the name of a cluster that filtering for `run` keeps. */
  ghost predicate ChosenFrom(selection: map<string, seq<string>>, filtered: Targets) {
    forall name :: Selected(selection, name) ==> Offered(filtered, name)
  }

  ghost predicate Offered(filtered: Targets, name: string) {
    exists p, c :: p in filtered && c in filtered[p] && c.name == name
  }

  /** No cluster name is listed with two URLs. */
  ghost predicate UniqueUrls(data: Targets) {
    forall p, q :: p in data && q in data ==> Agree(data[p], data[q])
  }

  ghost predicate Agree(some: seq<ClusterTarget>, others: seq<ClusterTarget>) {
    forall c, d :: c in some && d in others && c.name == d.name ==> c.url == d.url
  }

  lemma {:induction false} LastUrlListed(clusters: seq<ClusterTarget>, name: string)
    ensures LastUrl(clusters, name).Some? <==> exists c :: c in clusters && c.name == name
    ensures LastUrl(clusters, name).Some? ==> ClusterTarget(name, LastUrl(clusters, name).value) in clusters
  {
    if clusters != [] {
      var front, last := clusters[..|clusters| - 1], clusters[|clusters| - 1];
      assert clusters == front + [last];
      LastUrlListed(front, name);
      assert last in clusters;
    }
  }

  /** An offered name belongs to a permitted cluster of the unfiltered data. */
  lemma OfferedIsPermitted(groups: seq<Group>, data: Targets, filtered: Targets, run: Action, name: string)
    returns (p: string, c: ClusterTarget)
    requires FilteredBy(groups, data, run, filtered) && Offered(filtered, name)
    ensures p in data && c in data[p] && c.name == name && Grants(groups, c.url, run)
  {
    p, c :| p in filtered && c in filtered[p] && c.name == name;
    FilterMembers(Permitted(groups, run), data[p]);
    assert Permitted(groups, run)(c);
  }

  lemma AgreeingUrl(some: seq<ClusterTarget>, c: ClusterTarget, others: seq<ClusterTarget>)
    requires c in some && Agree(some, others)
    ensures LastUrl(some, c.name).Some?
    ensures LastUrl(others, c.name).Some? ==> LastUrl(others, c.name).value == c.url
  {
    LastUrlListed(some, c.name);
    LastUrlListed(others, c.name);
  }

  lemma OfferedIsSound(groups: seq<Group>, data: Targets, filtered: Targets, run: Action, name: string)
    requires FilteredBy(groups, data, run, filtered) && UniqueUrls(data) && Offered(filtered, name)
    ensures SoundName(groups, data, run, name)
  {
    var p, c := OfferedIsPermitted(groups, data, filtered, run, name);
    AgreeingUrl(data[p], c, data[p]);
    forall q | q in data && LastUrl(data[q], name).Some? ensures Grants(groups, LastUrl(data[q], name).value, run) {
      AgreeingUrl(data[p], c, data[q]);
    }
  }

  /** What the cluster list offers for 'run' can be run, in every iteration order. */
  lemma OfferedSelectionsPass(groups: seq<Group>, selection: map<string, seq<string>>, data: Targets,
      filtered: Targets, run: Action)
    requires FilteredBy(groups, data, run, filtered) && UniqueUrls(data)
    requires ChosenFrom(selection, filtered)
    ensures AlwaysPasses(groups, selection, data, run) <==> groups != []
  {
    forall name | Selected(selection, name) ensures SoundName(groups, data, run, name) {
      OfferedIsSound(groups, data, filtered, run, name);
    }
    AlwaysPassesIff(groups, selection, data, run);
  }

  /** Without unique URLs: every offered selection passes exactly when every offered name is sound. */
  lemma OffersHonouredIff(groups: seq<Group>, data: Targets, filtered: Targets, run: Action)
    requires groups != [] && FilteredBy(groups, data, run, filtered)
    ensures (forall selection :: ChosenFrom(selection, filtered) ==> AlwaysPasses(groups, selection, data, run)) <==>
      (forall name :: Offered(filtered, name) ==> SoundName(groups, data, run, name))
  {
    if forall selection :: ChosenFrom(selection, filtered) ==> AlwaysPasses(groups, selection, data, run) {
      forall name | Offered(filtered, name) ensures SoundName(groups, data, run, name) {
        var selection: map<string, seq<string>> := map["" := [name]];
        assert selection[""][0] == name;
        assert Selected(selection, name) && ChosenFrom(selection, filtered);
        AlwaysPassesIff(groups, selection, data, run);
      }
    }
    if forall name :: Offered(filtered, name) ==> SoundName(groups, data, run, name) {
      forall selection | ChosenFrom(selection, filtered) ensures AlwaysPasses(groups, selection, data, run) {
        AlwaysPassesIff(groups, selection, data, run);
      }
    }
  }
}
