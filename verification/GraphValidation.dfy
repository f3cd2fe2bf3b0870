/**
 Admission checks on a graph and its resolution into levels. The sanitiser is passed in as
 `san`; the operator passes `NodeIds.Sanitize`.
 */
module GraphValidation {
  import opened Common
  import opened GraphTypes
  import opened NodeIds

  datatype GraphFault =
    | EmptyGraph
    | IdTooLong(nodeId: string)
    | EmptyId
    | UnusableLabel(nodeId: string)
    | Collision(tag: string)
    | MissingParent(nodeId: string)
    | MetadataParent(nodeId: string)
    | SelfParent(nodeId: string)

  datatype ResolveFault = NoNodes | BadReference(nodeId: string) | LibraryError

  /** Labels the sanitiser uses as stand-ins, and the empty label. */
  const UNUSABLE_LABELS: set<string> := {"", "empty", "node"}

  /** Length of a character in UTF-8, which is what Go's `len` counts. */
  function Utf8Width(c: char): nat {
    if c < '\U{80}' then 1 else if c < '\U{800}' then 2 else if c < '\U{10000}' then 3 else 4
  }

  function ByteLength(s: string): nat {
    if s == "" then 0 else Utf8Width(s[0]) + ByteLength(s[1..])
  }

  /** Bytes add up, one to four for each character by its place in Unicode. */
  lemma {:induction false} ByteLengthAdds(s: string, c: char)
    ensures ByteLength("") == 0
    ensures ByteLength(s + [c]) == ByteLength(s)
              + (if c <= '\U{7F}' then 1 else if c <= '\U{7FF}' then 2 else if c <= '\U{FFFF}' then 3 else 4)
  {
    if s != "" {
      ByteLengthAdds(s[1..], c);
      assert (s + [c])[1..] == s[1..] + [c];
    }
  }

  /** The ID alone is acceptable. */
  ghost predicate GoodId(san: string -> string, nodeId: string) {
    && nodeId != ""
    && ByteLength(nodeId) <= MAX_NODE_ID_LENGTH
    && san(nodeId) !in UNUSABLE_LABELS
  }

  /** The sanitiser is injective on the executed nodes. */
  ghost predicate NoCollision(san: string -> string, ids: set<string>) {
    forall m, n :: m in ids && n in ids && san(m) == san(n) ==> m == n
  }

  /** A non-empty reference names another executed node. The empty reference is let through. */
  ghost predicate GoodReference(graph: Graph, nodeId: string)
    requires nodeId in graph
  {
    match graph[nodeId].dependsOn
    case None => true
    case Some(parent) => parent == "" || (IsNode(graph, parent) && parent != nodeId)
  }

  ghost predicate Admissible(san: string -> string, graph: Graph) {
    && graph != map[]
    && (forall n :: IsNode(graph, n) ==> GoodId(san, n))
    && NoCollision(san, ExecutableNodes(graph))
    && (forall n :: IsNode(graph, n) ==> GoodReference(graph, n))
  }

  /** What each reported fault means. */
  ghost predicate Explains(san: string -> string, graph: Graph, fault: GraphFault) {
    match fault
    case EmptyGraph => graph == map[]
    case IdTooLong(n) => IsNode(graph, n) && ByteLength(n) > MAX_NODE_ID_LENGTH
    case EmptyId => IsNode(graph, "")
    case UnusableLabel(n) => IsNode(graph, n) && san(n) in UNUSABLE_LABELS
    case Collision(tag) =>
      exists m, n :: IsNode(graph, m) && IsNode(graph, n) && m != n && san(m) == san(n) == tag
    case MissingParent(n) => IsNode(graph, n) && graph[n].dependsOn.Some? && graph[n].dependsOn.value !in graph
    case MetadataParent(n) => IsNode(graph, n) && graph[n].dependsOn.Some? && IsMetadata(graph[n].dependsOn.value)
    case SelfParent(n) => IsNode(graph, n) && graph[n].dependsOn == Some(n)
  }

  /** The IDs seen so far, grouped by the label they sanitise to. */
  ghost predicate Grouped(san: string -> string, seen: set<string>, groups: map<string, seq<string>>) {
    && (forall tag :: tag in groups ==> groups[tag] != [] && Distinct(groups[tag]))
    && (forall tag, n :: tag in groups && n in groups[tag] ==> n in seen && san(n) == tag)
    && (forall n :: n in seen ==> san(n) in groups && n in groups[san(n)])
  }

  lemma GroupedExtended(san: string -> string, seen: set<string>, groups: map<string, seq<string>>, n: string)
    requires Grouped(san, seen, groups) && n !in seen
    ensures var tag := san(n);
            var before := if tag in groups then groups[tag] else [];
            Grouped(san, seen + {n}, groups[tag := before + [n]])
  {
  }

  method CheckIds(san: string -> string, graph: Graph) returns (fault: Option<GraphFault>, groups: map<string,
      seq<string>>)
    ensures fault.None? <==> forall n :: IsNode(graph, n) ==> GoodId(san, n)
    ensures fault.None? ==> Grouped(san, ExecutableNodes(graph), groups)
    ensures fault.Some? ==> Explains(san, graph, fault.value) && !fault.value.Collision?
  {
    groups := map[];
    var remaining := graph.Keys;
    ghost var seen: set<string> := {};
    while remaining != {}
      invariant remaining <= graph.Keys
      invariant seen == set n | n in graph && n !in remaining && !IsMetadata(n)
      invariant forall n :: n in seen ==> GoodId(san, n)
      invariant Grouped(san, seen, groups)
    {
      var nodeId :| nodeId in remaining;
      remaining := remaining - {nodeId};
      if IsMetadata(nodeId) {
        continue;
      }
      assert IsNode(graph, nodeId);
      if ByteLength(nodeId) > MAX_NODE_ID_LENGTH {
        return Some(IdTooLong(nodeId)), groups;
      }
      if nodeId == "" {
        return Some(EmptyId), groups;
      }
      var sanitized := san(nodeId);
      if sanitized == "" || sanitized == "empty" || sanitized == "node" {
        return Some(UnusableLabel(nodeId)), groups;
      }
      GroupedExtended(san, seen, groups, nodeId);
      groups := groups[sanitized := (if sanitized in groups then groups[sanitized] else []) + [nodeId]];
      seen := seen + {nodeId};
    }
    assert seen == ExecutableNodes(graph);
    return None, groups;
  }

  method CheckCollisions(san: string -> string, graph: Graph, groups: map<string, seq<string>>)
    returns (fault: Option<GraphFault>)
    requires Grouped(san, ExecutableNodes(graph), groups)
    ensures fault.None? <==> NoCollision(san, ExecutableNodes(graph))
    ensures fault.Some? ==> Explains(san, graph, fault.value)
  {
    var remaining := groups.Keys;
    while remaining != {}
      invariant remaining <= groups.Keys
      invariant forall tag :: tag in groups && tag !in remaining ==> |groups[tag]| == 1
    {
      var tag :| tag in remaining;
      remaining := remaining - {tag};
      if |groups[tag]| > 1 {
        var m, n := groups[tag][0], groups[tag][1];
        assert m in groups[tag] && n in groups[tag] && m != n;
        assert m in ExecutableNodes(graph) && n in ExecutableNodes(graph);
        return Some(Collision(tag));
      }
    }
    forall m, n | m in ExecutableNodes(graph) && n in ExecutableNodes(graph) && san(m) == san(n)
      ensures m == n
    {
      assert m in groups[san(m)] && n in groups[san(m)];
    }
    return None;
  }

  method CheckReferences(san: string -> string, graph: Graph) returns (fault: Option<GraphFault>)
    ensures fault.None? <==> forall n :: IsNode(graph, n) ==> GoodReference(graph, n)
    ensures fault.Some? ==> Explains(san, graph, fault.value)
  {
    var remaining := graph.Keys;
    while remaining != {}
      invariant remaining <= graph.Keys
      invariant forall n :: IsNode(graph, n) && n !in remaining ==> GoodReference(graph, n)
    {
      var nodeId :| nodeId in remaining;
      remaining := remaining - {nodeId};
      if IsMetadata(nodeId) {
        continue;
      }
      var dependsOn := graph[nodeId].dependsOn;
      if dependsOn.Some? && dependsOn.value != "" {
        assert IsNode(graph, nodeId);
        if dependsOn.value !in graph {
          return Some(MissingParent(nodeId));
        }
        if IsMetadata(dependsOn.value) {
          return Some(MetadataParent(nodeId));
        }
        if dependsOn.value == nodeId {
          return Some(SelfParent(nodeId));
        }
      }
    }
    return None;
  }

  /** The key is not metadata. */
  ghost predicate Executed(graph: Graph, n: string) {
    n in graph && (n == "" || n[0] != '_')
  }

  ghost predicate UsableId(san: string -> string, n: string) {
    n != "" && ByteLength(n) <= 253 && san(n) != "" && san(n) != "empty" && san(n) != "node"
  }

  /** Admission spelled out: non-empty, usable IDs, no two of the same label, and no dangling reference. */
  lemma AdmissibleMeaning(san: string -> string, graph: Graph)
    ensures Admissible(san, graph) <==>
        && graph != map[]
        && (forall n :: Executed(graph, n) ==> UsableId(san, n))
        && (forall m, n :: Executed(graph, m) && Executed(graph, n) && m != n ==> san(m) != san(n))
        && (forall n, p :: Executed(graph, n) && graph[n].dependsOn == Some(p) && p != "" ==>
             Executed(graph, p) && p != n)
  {
    assert forall n :: n in ExecutableNodes(graph) <==> Executed(graph, n);
    assert forall n :: IsNode(graph, n) <==> Executed(graph, n);
    assert forall n :: GoodId(san, n) <==> UsableId(san, n);
    assert forall n, p :: Executed(graph, n) && graph[n].dependsOn == Some(p) ==>
        (GoodReference(graph, n) <==> p == "" || (Executed(graph, p) && p != n));
  }

  /** Accepts exactly the admissible graphs, whatever the map iteration order, and names a real fault otherwise. */
  method ValidateGraph(san: string -> string, graph: Graph) returns (fault: Option<GraphFault>)
    ensures fault.None? <==> Admissible(san, graph)
    ensures fault.Some? ==> Explains(san, graph, fault.value)
  {
    if |graph| == 0 {
      return Some(EmptyGraph);
    }
    var groups;
    fault, groups := CheckIds(san, graph);
    if fault.Some? {
      return;
    }
    fault := CheckCollisions(san, graph, groups);
    if fault.Some? {
      return;
    }
    fault := CheckReferences(san, graph);
  }

  // ---------------------------------------------------------------------------------------
  // Resolution into levels

  ghost predicate AllRoots(graph: Graph) {
    forall n :: IsNode(graph, n) ==> graph[n].dependsOn.None?
  }

  ghost predicate Resolvable(graph: Graph) {
    && ExecutableNodes(graph) != {}
    && forall n :: IsNode(graph, n) ==> GoodReference(graph, n)
  }

  /** The contract of a layering, in three separate parts. */
  ghost predicate Layers(graph: Graph, levels: Levels) {
    AtMostOnce(levels) && ParentsEarlier(graph, levels) && Covers(graph, levels)
  }

  /** What resolving may answer, given the library's answer. */
  ghost predicate ResolvesTo(graph: Graph, library: Option<Levels>, r: Option<Levels>) {
    && (r.Some? <==> Resolvable(graph) && (AllRoots(graph) || library.Some?))
    && (r.Some? && AllRoots(graph) ==> |r.value| == 1 && Layers(graph, r.value))
    && (r.Some? && !AllRoots(graph) ==> r == library)
  }

  /**
   Filtering, reference checks and the all-roots shortcut; `library` is what the dependency-graph
   library answers for the remaining graphs (`None` when it reports an error such as a cycle).
   */
  method ResolveGraph(graph: Graph, library: Option<Levels>) returns (r: Result<Levels, ResolveFault>)
    ensures ResolvesTo(graph, library, if r.Ok? then Some(r.value) else None)
    ensures r == Err(NoNodes) <==> ExecutableNodes(graph) == {}
    ensures r == Err(LibraryError) <==> Resolvable(graph) && !AllRoots(graph) && library.None?
    ensures r.Err? && r.error.BadReference? ==> IsNode(graph, r.error.nodeId) && !GoodReference(graph, r.error.nodeId)
  {
    var filtered := map n | n in graph && !IsMetadata(n) :: graph[n];
    assert filtered.Keys == ExecutableNodes(graph);
    if |filtered| == 0 {
      return Err(NoNodes);
    }
    var allRoots := true;
    var remaining := filtered.Keys;
    while remaining != {}
      invariant remaining <= filtered.Keys
      invariant forall n :: n in filtered && n !in remaining ==> GoodReference(graph, n)
      invariant allRoots <==> forall n :: n in filtered && n !in remaining ==> graph[n].dependsOn.None?
    {
      var nodeId :| nodeId in remaining;
      remaining := remaining - {nodeId};
      var dependsOn := filtered[nodeId].dependsOn;
      if dependsOn.Some? && dependsOn.value != "" {
        if dependsOn.value !in filtered || dependsOn.value == nodeId {
          assert IsNode(graph, nodeId) && !GoodReference(graph, nodeId);
          return Err(BadReference(nodeId));
        }
      }
      allRoots := allRoots && dependsOn.None?;
    }
    assert Resolvable(graph);
    if allRoots {
      var level := [];
      remaining := filtered.Keys;
      while remaining != {}
        invariant remaining <= filtered.Keys
        invariant Distinct(level)
        invariant forall n :: n in level <==> n in filtered && n !in remaining
      {
        var nodeId :| nodeId in remaining;
        remaining := remaining - {nodeId};
        level := level + [nodeId];
      }
      SingleLevelLayers(graph, level);
      return Ok([level]);
    }
    if library.None? {
      return Err(LibraryError);
    }
    return Ok(library.value);
  }

  /** When nothing depends on anything, one level in any order meets all three parts of the contract. */
  lemma SingleLevelLayers(graph: Graph, level: seq<string>)
    requires Enumerates(level, ExecutableNodes(graph)) && AllRoots(graph)
    ensures AtMostOnce([level]) && ParentsEarlier(graph, [level]) && Covers(graph, [level])
  {
    forall n ensures InLevels([level], n) <==> IsNode(graph, n) {
      if n in level {
        assert n in [level][0];
      }
    }
    forall k, n | 0 <= k < 1 && n in [level][k] ensures IsNode(graph, n) {
    }
  }

  /** The two validators agree: an admitted graph is only ever refused for having no executable node. */
  lemma AdmissibleResolves(san: string -> string, graph: Graph)
    requires Admissible(san, graph)
    ensures Resolvable(graph) <==> exists n :: IsNode(graph, n)
  {
    if n :| IsNode(graph, n) {
      assert n in ExecutableNodes(graph);
    }
    if ExecutableNodes(graph) != {} {
      var n :| n in ExecutableNodes(graph);
      assert IsNode(graph, n);
    }
  }

  /**
   A reference to the empty string passes both validators, yet no layering of the executed nodes
   can place such a node after its "parent".
   */
  lemma EmptyReferenceUnlayerable(san: string -> string, graph: Graph, levels: Levels, n: string)
    requires Admissible(san, graph) && IsNode(graph, n) && graph[n].dependsOn == Some("")
    requires Covers(graph, levels)
    ensures Resolvable(graph) && !AllRoots(graph) && !ParentsEarlier(graph, levels)
  {
    assert n in ExecutableNodes(graph);
    assert InLevels(levels, n);
    var k :| 0 <= k < |levels| && n in levels[k];
    ParentPlaced(graph, levels, n, "", k);
  }

  lemma ParentPlaced(graph: Graph, levels: Levels, n: string, parent: string, k: nat)
    requires k < |levels| && n in levels[k] && n in graph && graph[n].dependsOn == Some(parent)
    ensures ParentsEarlier(graph, levels) ==> InLevels(levels, parent)
  {
  }
}
