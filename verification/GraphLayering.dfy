/** Which graphs can be layered at all. */
module GraphLayering {
  import opened Common
  import opened GraphTypes
  import opened GraphValidation

  /** The node's chain of dependencies stays within the executed nodes and ends at one that depends on nothing. */
  ghost predicate Rooted(graph: Graph, n: string) {
    exists path :: Roots(graph, n, path)
  }

  ghost predicate Roots(graph: Graph, n: string, path: seq<string>) {
    && DependsChain(graph, path) && path[0] == n
    && (forall i :: 0 <= i < |path| ==> IsNode(graph, path[i]))
    && graph[path[|path| - 1]].dependsOn.None?
  }

  /** The chain has `d` steps. */
  ghost predicate AtDepth(graph: Graph, n: string, d: nat)
    decreases d
  {
    && IsNode(graph, n)
    && match graph[n].dependsOn
       case None => d == 0
       case Some(parent) => d > 0 && AtDepth(graph, parent, d - 1)
  }

  lemma {:induction false} DepthUnique(graph: Graph, n: string, c: nat, d: nat)
    requires AtDepth(graph, n, c) && AtDepth(graph, n, d)
    ensures c == d
    decreases d
  {
    if graph[n].dependsOn.Some? {
      DepthUnique(graph, graph[n].dependsOn.value, c - 1, d - 1);
    }
  }

  lemma {:induction false} RootedHasDepth(graph: Graph, n: string, path: seq<string>)
    requires Roots(graph, n, path)
    ensures AtDepth(graph, n, |path| - 1)
    decreases |path|
  {
    if |path| > 1 {
      var rest := path[1..];
      assert forall i :: 0 <= i < |rest| ==> rest[i] == path[i + 1];
      RootedHasDepth(graph, path[1], rest);
    }
  }

  /** Every smaller depth is taken by an ancestor. */
  lemma {:induction false} DepthsBelow(graph: Graph, n: string, d: nat, c: nat) returns (m: string)
    requires AtDepth(graph, n, d) && c <= d
    ensures AtDepth(graph, m, c)
    decreases d
  {
    m := n;
    if c < d {
      m := DepthsBelow(graph, graph[n].dependsOn.value, d - 1, c);
    }
  }

  // ---------------------------------------------------------------------------------------
  // Layers by depth

  ghost function DepthSet(graph: Graph, d: nat): set<string> {
    set n | n in graph && AtDepth(graph, n, d)
  }

  ghost function ByDepth(graph: Graph, height: nat): Levels {
    seq(height, d requires 0 <= d < height => EnumerationOf(DepthSet(graph, d)))
  }

  /** All depths are below `height`, the least such number. */
  ghost predicate Height(graph: Graph, nodes: set<string>, height: nat) {
    && (forall n :: n in nodes ==> exists d: nat :: d < height && AtDepth(graph, n, d))
    && (height > 0 ==> exists n :: n in nodes && AtDepth(graph, n, height - 1))
  }

  lemma {:induction false} HeightExists(graph: Graph, nodes: set<string>) returns (height: nat)
    requires forall n :: n in nodes ==> Rooted(graph, n)
    ensures Height(graph, nodes, height)
    decreases |nodes|
  {
    if nodes == {} {
      height := 0;
    } else {
      var n :| n in nodes;
      var rest := HeightExists(graph, nodes - {n});
      var path :| Roots(graph, n, path);
      RootedHasDepth(graph, n, path);
      height := if |path| > rest then |path| else rest;
      if height == |path| {
        assert AtDepth(graph, n, height - 1);
      }
      forall m | m in nodes ensures exists d: nat :: d < height && AtDepth(graph, m, d) {
        if m != n {
          assert m in nodes - {n};
          var d: nat :| d < rest && AtDepth(graph, m, d);
        }
      }
    }
  }

  lemma DepthLevel(graph: Graph, height: nat, d: nat, n: string)
    requires d < height
    ensures n in ByDepth(graph, height)[d] <==> AtDepth(graph, n, d)
  {
    assert n in DepthSet(graph, d) <==> AtDepth(graph, n, d);
  }

  lemma ByDepthOnce(graph: Graph, height: nat)
    ensures AtMostOnce(ByDepth(graph, height))
  {
    var levels := ByDepth(graph, height);
    forall i, a, j, b | 0 <= i < |levels| && 0 <= a < |levels[i]| && 0 <= j < |levels| && 0 <= b < |levels[j]|
        && levels[i][a] == levels[j][b]
      ensures i == j && a == b
    {
      var n := levels[i][a];
      assert n in levels[i] && n in levels[j];
      DepthLevel(graph, height, i, n);
      DepthLevel(graph, height, j, n);
      DepthUnique(graph, n, i, j);
      assert Distinct(EnumerationOf(DepthSet(graph, i)));
    }
  }

  lemma ByDepthParents(graph: Graph, height: nat)
    ensures ParentsEarlier(graph, ByDepth(graph, height))
  {
    var levels := ByDepth(graph, height);
    forall k, n | 0 <= k < |levels| && n in levels[k] && n in graph && graph[n].dependsOn.Some?
      ensures exists j :: 0 <= j < k && graph[n].dependsOn.value in levels[j]
    {
      DepthLevel(graph, height, k, n);
      DepthLevel(graph, height, k - 1, graph[n].dependsOn.value);
    }
  }

  lemma ByDepthCovers(graph: Graph, height: nat)
    requires Height(graph, ExecutableNodes(graph), height)
    ensures Covers(graph, ByDepth(graph, height))
  {
    var levels := ByDepth(graph, height);
    forall n ensures InLevels(levels, n) <==> IsNode(graph, n) {
      if IsNode(graph, n) {
        assert n in ExecutableNodes(graph);
        var d: nat :| d < height && AtDepth(graph, n, d);
        DepthLevel(graph, height, d, n);
      }
      if InLevels(levels, n) {
        var k :| 0 <= k < |levels| && n in levels[k];
        DepthLevel(graph, height, k, n);
      }
    }
  }

  /** Rooted nodes can be layered by the length of their chains, without an empty level. */
  lemma RootedLayers(graph: Graph) returns (levels: Levels)
    requires forall n :: IsNode(graph, n) ==> Rooted(graph, n)
    ensures Layers(graph, levels) && forall k :: 0 <= k < |levels| ==> levels[k] != []
  {
    var height := HeightExists(graph, ExecutableNodes(graph));
    levels := ByDepth(graph, height);
    ByDepthOnce(graph, height);
    ByDepthParents(graph, height);
    ByDepthCovers(graph, height);
    forall k | 0 <= k < |levels| ensures levels[k] != [] {
      LevelsNonEmpty(graph, height, k);
    }
  }

  lemma LevelsNonEmpty(graph: Graph, height: nat, k: nat)
    requires Height(graph, ExecutableNodes(graph), height) && k < height
    ensures ByDepth(graph, height)[k] != []
  {
    var n :| n in ExecutableNodes(graph) && AtDepth(graph, n, height - 1);
    var m := DepthsBelow(graph, n, height - 1, k);
    DepthLevel(graph, height, k, m);
  }

  /** In a full layering every chain descends to the bottom. */
  lemma {:induction false} LayeredIsRooted(graph: Graph, levels: Levels, k: nat, n: string) returns (path: seq<string>)
    requires ParentsEarlier(graph, levels) && Covers(graph, levels)
    requires k < |levels| && n in levels[k]
    ensures Roots(graph, n, path)
    decreases k
  {
    assert InLevels(levels, n);
    match graph[n].dependsOn
    case None => path := [n];
    case Some(parent) =>
      var j :| 0 <= j < k && parent in levels[j];
      var rest := LayeredIsRooted(graph, levels, j, parent);
      path := [n] + rest;
  }

  /**
   A graph has a full layering exactly when every executed node's chain of dependencies ends at a
   node that depends on nothing. References to the empty string and cycles, both of which pass
   validation, are what breaks it.
   */
  lemma LayerableIff(graph: Graph)
    ensures (exists levels :: Layers(graph, levels)) <==> forall n :: IsNode(graph, n) ==> Rooted(graph, n)
  {
    if levels :| Layers(graph, levels) {
      forall n | IsNode(graph, n) ensures Rooted(graph, n) {
        assert InLevels(levels, n);
        var k :| 0 <= k < |levels| && n in levels[k];
        var path := LayeredIsRooted(graph, levels, k, n);
      }
    }
    if forall n :: IsNode(graph, n) ==> Rooted(graph, n) {
      var levels := RootedLayers(graph);
    }
  }

  /**
   Admission alone does not give it: two nodes that depend on each other are admitted under any
   injective sanitiser.
   */
  lemma CycleAdmitted(san: string -> string)
    requires GoodId(san, "a") && GoodId(san, "b") && san("a") != san("b")
    ensures var graph := map["a" := GraphNode("A", "img", Some("b")), "b" := GraphNode("B", "img", Some("a"))];
            Admissible(san, graph) && Resolvable(graph) && !AllRoots(graph) && !exists levels :: Layers(graph, levels)
  {
    var graph := map["a" := GraphNode("A", "img", Some("b")), "b" := GraphNode("B", "img", Some("a"))];
    assert "a" in graph && "b" in graph && IsNode(graph, "a") && IsNode(graph, "b");
    assert ExecutableNodes(graph) == {"a", "b"};
    if d: nat :| AtDepth(graph, "a", d) {
      CycleHasNoDepth(graph, d);
    }
    LayerableIff(graph);
    if Rooted(graph, "a") {
      var path :| Roots(graph, "a", path);
      RootedHasDepth(graph, "a", path);
    }
  }

  lemma {:induction false} CycleHasNoDepth(graph: Graph, d: nat)
    requires "a" in graph && "b" in graph && graph["a"].dependsOn == Some("b") && graph["b"].dependsOn == Some("a")
    ensures !AtDepth(graph, "a", d) && !AtDepth(graph, "b", d)
  {
    if d > 0 {
      CycleHasNoDepth(graph, d - 1);
    }
  }
}
