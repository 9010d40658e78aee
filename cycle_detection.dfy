/**
 * Circular-dependency detection of the analysis engine
 * (services/analysisEngine.ts, findCircularDependencies): a depth-first
 * search over the dependency graph that keeps the set of nodes on the
 * current path (`visiting`), the set of finished nodes (`visited`) and the
 * list of cycles found, reporting a cycle at every back edge unless a
 * cycle over the same nodes was already reported.
 *
 * `Visit` and `VisitNeighbors` are the search as functions of the search
 * state; `CycleSearch` is the same search with the state in mutable fields
 * and is proved to compute exactly these functions.
 */
module CycleDetection {
  import opened JsStrings

  /** The adjacency lists `graph[path]`, in insertion order. */
  type Graph = map<string, seq<string>>

  /** `graph[node] || []`. */
  function Neighbors(g: Graph, n: string): seq<string>
  {
    if n in g then g[n] else []
  }

  predicate Edge(g: Graph, a: string, b: string)
  {
    b in Neighbors(g, a)
  }

  /** Every node of the graph: its keys and every edge target. */
  function Vertices(g: Graph): set<string>
  {
    g.Keys + set n, v | n in g && v in g[n] :: v
  }

  lemma NeighborIsVertex(g: Graph, a: string, b: string)
    requires Edge(g, a, b)
    ensures b in Vertices(g)
  {
  }

  // ---------------------------------------------------------------------
  // Array helpers with JavaScript semantics
  // ---------------------------------------------------------------------

  /** `s.indexOf(x)`: the first position of `x`, or -1. */
  function IndexOf(s: seq<string>, x: string): (k: int)
    ensures x !in s ==> k == -1
    ensures x in s ==> 0 <= k < |s| && s[k] == x && forall j :: 0 <= j < k ==> s[j] != x
    decreases |s|
  {
    if s == [] then -1
    else if s[0] == x then 0
    else
      var k := IndexOf(s[1..], x);
      if k < 0 then -1 else k + 1
  }

  /** `s.slice(start)`: a negative start counts from the end. */
  function SliceFrom(s: seq<string>, start: int): seq<string>
  {
    if start < 0 then (if |s| + start <= 0 then s else s[|s| + start..])
    else if start <= |s| then s[start..]
    else []
  }

  // ---------------------------------------------------------------------
  // The search, as functions of its state
  // ---------------------------------------------------------------------

  /**
   * The closure state of the search: the nodes on the current path, the
   * finished nodes (a set, kept in the order nodes finished) and the cycles
   * reported so far.
   */
  datatype SearchState = SearchState(visiting: set<string>, visited: seq<string>, cycles: seq<seq<string>>)

  /** A reported cycle already covers the nodes of `cycle` (compared as sorted lists). */
  predicate Known(cycles: seq<seq<string>>, cycle: seq<string>)
  {
    exists k :: 0 <= k < |cycles| && SortStrings(cycles[k]) == SortStrings(cycle)
  }

  /** Report `cycle` unless it is known. */
  function Record(cycles: seq<seq<string>>, cycle: seq<string>): seq<seq<string>>
  {
    if Known(cycles, cycle) then cycles else cycles + [cycle]
  }

  /** `visited.add(node)`. */
  function AddVisited(visited: seq<string>, node: string): seq<string>
  {
    if node in visited then visited else visited + [node]
  }

  /**
   * `dfs(node, path)`: mark `node` as on the path, walk its neighbours,
   * then move it from the path to the finished nodes.
   */
  function Visit(g: Graph, node: string, path: seq<string>, s: SearchState): (r: SearchState)
    requires node in Vertices(g) && node !in s.visiting
    ensures r.visiting == s.visiting
    decreases Vertices(g) - s.visiting, 1
  {
    var s1 := s.(visiting := s.visiting + {node});
    assert s1.visiting - {node} == s.visiting;
    var r1 := VisitNeighbors(g, node, path + [node], 0, s1);
    r1.(visiting := r1.visiting - {node}, visited := AddVisited(r1.visited, node))
  }

  /**
   * The loop over the neighbours of `node` from position `i` on: a neighbour
   * on the current path closes a cycle (the path from that neighbour's
   * position), an unfinished one is visited with a copy of the path, a
   * finished one is skipped.
   */
  function VisitNeighbors(g: Graph, node: string, path: seq<string>, i: nat, s: SearchState): (r: SearchState)
    requires node in Vertices(g) && node in s.visiting
    requires i <= |Neighbors(g, node)|
    ensures r.visiting == s.visiting
    decreases Vertices(g) - (s.visiting - {node}), 0, |Neighbors(g, node)| - i
  {
    var ns := Neighbors(g, node);
    if i == |ns| then s
    else
      var nb := ns[i];
      NeighborIsVertex(g, node, nb);
      var s' :=
        if nb in s.visiting then s.(cycles := Record(s.cycles, SliceFrom(path, IndexOf(path, nb))))
        else if nb !in s.visited then Visit(g, nb, path, s)
        else s;
      VisitNeighbors(g, node, path, i + 1, s')
  }

  /** `files.forEach(file => { if (!visited.has(file.path)) dfs(file.path, []) })`. */
  function SearchFrom(g: Graph, roots: seq<string>, s: SearchState): (r: SearchState)
    requires forall k :: 0 <= k < |roots| ==> roots[k] in Vertices(g)
    requires s.visiting == {}
    ensures r.visiting == {}
    decreases |roots|
  {
    if roots == [] then s
    else SearchFrom(g, roots[1..], if roots[0] in s.visited then s else Visit(g, roots[0], [], s))
  }

  /** The cycles the search reports, starting from each root in turn. */
  function FindCycles(g: Graph, roots: seq<string>): seq<seq<string>>
    requires forall k :: 0 <= k < |roots| ==> roots[k] in Vertices(g)
  {
    SearchFrom(g, roots, SearchState({}, [], [])).cycles
  }

  // ---------------------------------------------------------------------
  // What the search guarantees
  // ---------------------------------------------------------------------

  predicate Distinct(p: seq<string>)
  {
    forall a, b :: 0 <= a < b < |p| ==> p[a] != p[b]
  }

  /** Consecutive entries of `p` are edges. */
  predicate Chain(g: Graph, p: seq<string>)
  {
    forall k :: 0 <= k < |p| - 1 ==> Edge(g, p[k], p[k + 1])
  }

  /** A cycle without repeated nodes: a chain whose last node has an edge back to the first. */
  predicate SimpleCycle(g: Graph, c: seq<string>)
  {
    |c| > 0 && Distinct(c) && Chain(g, c) && Edge(g, c[|c| - 1], c[0])
  }

  /** A closed walk, repeated nodes allowed. */
  predicate ClosedWalk(g: Graph, c: seq<string>)
  {
    |c| > 0 && Chain(g, c) && Edge(g, c[|c| - 1], c[0])
  }

  ghost predicate Cyclic(g: Graph)
  {
    exists c :: ClosedWalk(g, c)
  }

  /** Every neighbour of the `i`-th finished node finished before it. */
  predicate FinishedAfterNeighbors(g: Graph, visited: seq<string>, i: int)
    requires 0 <= i < |visited|
  {
    forall v :: v in Neighbors(g, visited[i]) ==> v in visited[..i]
  }

  /** The reported cycles are simple cycles, no two of them over the same nodes. */
  predicate CyclesOk(g: Graph, cycles: seq<seq<string>>)
  {
    (forall k :: 0 <= k < |cycles| ==> SimpleCycle(g, cycles[k]))
    && (forall a, b :: 0 <= a < b < |cycles| ==> SortStrings(cycles[a]) != SortStrings(cycles[b]))
  }

  /**
   * The invariant of the search state: finished nodes are off the path,
   * the cycles are sound, and as long as no cycle was reported, every
   * finished node finished after all its neighbours.
   */
  predicate Inv(g: Graph, s: SearchState)
  {
    (forall x :: x in s.visited ==> x !in s.visiting)
    && CyclesOk(g, s.cycles)
    && (s.cycles == [] ==> forall i :: 0 <= i < |s.visited| ==> FinishedAfterNeighbors(g, s.visited, i))
  }

  /** The path of a call: distinct nodes along edges, exactly the nodes of `visiting`. */
  ghost predicate PathOk(g: Graph, path: seq<string>, visiting: set<string>)
  {
    Distinct(path) && Chain(g, path) && forall x :: x in path <==> x in visiting
  }

  /** The cycle cut from the path at a back edge is a simple cycle. */
  lemma BackEdgeCycle(g: Graph, path: seq<string>, visiting: set<string>, nb: string)
    requires PathOk(g, path, visiting) && |path| > 0
    requires Edge(g, path[|path| - 1], nb) && nb in path
    ensures SimpleCycle(g, SliceFrom(path, IndexOf(path, nb)))
  {
    var k := IndexOf(path, nb);
    var c := path[k..];
    assert SliceFrom(path, k) == c;
    assert c[0] == nb && c[|c| - 1] == path[|path| - 1];
    SuffixChain(g, path, k);
    SuffixDistinct(path, k);
  }

  lemma SuffixChain(g: Graph, p: seq<string>, k: nat)
    requires k <= |p| && Chain(g, p)
    ensures Chain(g, p[k..])
  {
    var c := p[k..];
    forall j | 0 <= j < |c| - 1 ensures Edge(g, c[j], c[j + 1]) {
      assert c[j] == p[k + j] && c[j + 1] == p[k + j + 1];
    }
  }

  lemma SuffixDistinct(p: seq<string>, k: nat)
    requires k <= |p| && Distinct(p)
    ensures Distinct(p[k..])
  {
    var c := p[k..];
    forall a, b | 0 <= a < b < |c| ensures c[a] != c[b] {
      assert c[a] == p[k + a] && c[b] == p[k + b];
    }
  }

  /** Recording a simple cycle keeps the reported cycles sound and only appends. */
  lemma RecordOk(g: Graph, cycles: seq<seq<string>>, cycle: seq<string>)
    requires CyclesOk(g, cycles) && SimpleCycle(g, cycle)
    ensures CyclesOk(g, Record(cycles, cycle))
    ensures cycles <= Record(cycles, cycle) && Record(cycles, cycle) != []
  {
    if !Known(cycles, cycle) {
      var r := cycles + [cycle];
      forall a, b | 0 <= a < b < |r| ensures SortStrings(r[a]) != SortStrings(r[b]) {
        if b == |cycles| {
          assert r[b] == cycle;
          assert !(0 <= a < |cycles| && SortStrings(cycles[a]) == SortStrings(cycle));
        }
      }
    }
  }

  lemma {:induction false} VisitLemma(g: Graph, node: string, path: seq<string>, s: SearchState)
    requires node in Vertices(g) && node !in s.visiting && node !in s.visited
    requires Inv(g, s) && PathOk(g, path, s.visiting)
    requires |path| > 0 ==> Edge(g, path[|path| - 1], node)
    ensures Inv(g, Visit(g, node, path, s))
    ensures s.visited <= Visit(g, node, path, s).visited && s.cycles <= Visit(g, node, path, s).cycles
    ensures node in Visit(g, node, path, s).visited
    decreases Vertices(g) - s.visiting, 1
  {
    var s1 := s.(visiting := s.visiting + {node});
    assert s1.visiting - {node} == s.visiting;
    var p := path + [node];
    assert PathOk(g, p, s1.visiting) by {
      forall a, b | 0 <= a < b < |p| ensures p[a] != p[b] {
        if b == |path| { assert p[a] in path; }
      }
      forall k | 0 <= k < |p| - 1 ensures Edge(g, p[k], p[k + 1]) {
        if k < |path| - 1 { assert p[k] == path[k] && p[k + 1] == path[k + 1]; }
      }
    }
    VisitNeighborsLemma(g, node, p, 0, s1);
    var r1 := VisitNeighbors(g, node, p, 0, s1);
    var r := Visit(g, node, path, s);
    assert r == r1.(visiting := r1.visiting - {node}, visited := AddVisited(r1.visited, node));
    assert node !in r1.visited;
    assert r.visited == r1.visited + [node];
    if r.cycles == [] {
      FinishNode(g, node, r1.visited);
    }
  }

  /** A node whose neighbours have all finished may finish next. */
  lemma FinishNode(g: Graph, node: string, visited: seq<string>)
    requires forall i :: 0 <= i < |visited| ==> FinishedAfterNeighbors(g, visited, i)
    requires forall k :: 0 <= k < |Neighbors(g, node)| ==> Neighbors(g, node)[k] in visited
    ensures forall i :: 0 <= i < |visited + [node]| ==> FinishedAfterNeighbors(g, visited + [node], i)
  {
    var r := visited + [node];
    forall i | 0 <= i < |r| ensures FinishedAfterNeighbors(g, r, i) {
      if i < |visited| {
        assert r[..i] == visited[..i];
        assert FinishedAfterNeighbors(g, visited, i);
      } else {
        assert r[..i] == visited;
        forall v | v in Neighbors(g, node) ensures v in visited {
          var k :| 0 <= k < |Neighbors(g, node)| && Neighbors(g, node)[k] == v;
        }
      }
    }
  }

  lemma {:induction false} VisitNeighborsLemma(g: Graph, node: string, path: seq<string>, i: nat, s: SearchState)
    requires node in Vertices(g) && node in s.visiting && i <= |Neighbors(g, node)|
    requires Inv(g, s) && PathOk(g, path, s.visiting) && |path| > 0 && path[|path| - 1] == node
    requires s.cycles == [] ==> forall k :: 0 <= k < i ==> Neighbors(g, node)[k] in s.visited
    ensures Inv(g, VisitNeighbors(g, node, path, i, s))
    ensures s.visited <= VisitNeighbors(g, node, path, i, s).visited
    ensures s.cycles <= VisitNeighbors(g, node, path, i, s).cycles
    ensures VisitNeighbors(g, node, path, i, s).cycles == [] ==>
              forall k :: 0 <= k < |Neighbors(g, node)| ==> Neighbors(g, node)[k] in VisitNeighbors(g, node, path, i, s).visited
    decreases Vertices(g) - (s.visiting - {node}), 0, |Neighbors(g, node)| - i
  {
    var ns := Neighbors(g, node);
    if i < |ns| {
      var nb := ns[i];
      NeighborIsVertex(g, node, nb);
      var s': SearchState;
      if nb in s.visiting {
        BackEdgeCycle(g, path, s.visiting, nb);
        RecordOk(g, s.cycles, SliceFrom(path, IndexOf(path, nb)));
        s' := s.(cycles := Record(s.cycles, SliceFrom(path, IndexOf(path, nb))));
      } else if nb !in s.visited {
        VisitLemma(g, nb, path, s);
        s' := Visit(g, nb, path, s);
        assert s'.cycles == [] ==> s.cycles == [];
      } else {
        s' := s;
      }
      assert VisitNeighbors(g, node, path, i, s) == VisitNeighbors(g, node, path, i + 1, s');
      assert s'.cycles == [] ==> forall k :: 0 <= k < i + 1 ==> ns[k] in s'.visited by {
        if s'.cycles == [] {
          forall k | 0 <= k < i + 1 ensures ns[k] in s'.visited {
            if k < i { assert ns[k] in s.visited; }
          }
        }
      }
      VisitNeighborsLemma(g, node, path, i + 1, s');
    }
  }

  lemma {:induction false} SearchFromLemma(g: Graph, roots: seq<string>, s: SearchState)
    requires forall k :: 0 <= k < |roots| ==> roots[k] in Vertices(g)
    requires s.visiting == {} && Inv(g, s)
    ensures Inv(g, SearchFrom(g, roots, s))
    ensures s.visited <= SearchFrom(g, roots, s).visited && s.cycles <= SearchFrom(g, roots, s).cycles
    ensures forall k :: 0 <= k < |roots| ==> roots[k] in SearchFrom(g, roots, s).visited
    decreases |roots|
  {
    if roots != [] {
      var s' := if roots[0] in s.visited then s else Visit(g, roots[0], [], s);
      if roots[0] !in s.visited {
        VisitLemma(g, roots[0], [], s);
      }
      SearchFromLemma(g, roots[1..], s');
      var r := SearchFrom(g, roots, s);
      forall k | 0 <= k < |roots| ensures roots[k] in r.visited {
        if k == 0 {
          assert roots[0] in s'.visited;
        } else {
          assert roots[k] == roots[1..][k - 1];
        }
      }
    }
  }

  /**
   * Every cycle the search reports is a simple cycle of the graph, and no
   * two reported cycles run over the same multiset of nodes.
   */
  lemma FindCyclesSound(g: Graph, roots: seq<string>)
    requires forall k :: 0 <= k < |roots| ==> roots[k] in Vertices(g)
    ensures forall k :: 0 <= k < |FindCycles(g, roots)| ==> SimpleCycle(g, FindCycles(g, roots)[k])
    ensures forall a, b :: 0 <= a < b < |FindCycles(g, roots)| ==>
              multiset(FindCycles(g, roots)[a]) != multiset(FindCycles(g, roots)[b])
  {
    var init := SearchState({}, [], []);
    SearchFromLemma(g, roots, init);
    var cs := FindCycles(g, roots);
    forall a, b | 0 <= a < b < |cs| ensures multiset(cs[a]) != multiset(cs[b]) {
      SortStringsEqIff(cs[a], cs[b]);
    }
  }

  /** Along an edge, the rank (position among the finished nodes) strictly drops. */
  lemma EdgeLowersRank(g: Graph, visited: seq<string>, a: string, b: string)
    requires forall i :: 0 <= i < |visited| ==> FinishedAfterNeighbors(g, visited, i)
    requires a in visited && Edge(g, a, b)
    ensures b in visited && IndexOf(visited, b) < IndexOf(visited, a)
  {
    var i := IndexOf(visited, a);
    assert FinishedAfterNeighbors(g, visited, i);
    assert b in visited[..i];
    var j :| 0 <= j < i && visited[..i][j] == b;
    assert visited[j] == b;
  }

  /** Along a chain from a finished node, ranks never rise. */
  lemma {:induction false} ChainLowersRank(g: Graph, visited: seq<string>, c: seq<string>, k: nat)
    requires forall i :: 0 <= i < |visited| ==> FinishedAfterNeighbors(g, visited, i)
    requires Chain(g, c) && |c| > 0 && c[0] in visited && k < |c|
    ensures c[k] in visited && IndexOf(visited, c[k]) <= IndexOf(visited, c[0])
  {
    if k > 0 {
      ChainLowersRank(g, visited, c, k - 1);
      EdgeLowersRank(g, visited, c[k - 1], c[k]);
    }
  }

  /**
   * The search reports no cycle exactly when the graph has no closed walk,
   * provided every node with outgoing edges is a root (every snapshot file
   * is a key of the graph and a root).
   */
  lemma FindCyclesComplete(g: Graph, roots: seq<string>)
    requires forall k :: 0 <= k < |roots| ==> roots[k] in Vertices(g)
    requires forall n :: n in g ==> n in roots
    ensures FindCycles(g, roots) == [] <==> !Cyclic(g)
  {
    var init := SearchState({}, [], []);
    SearchFromLemma(g, roots, init);
    var r := SearchFrom(g, roots, init);
    if r.cycles != [] {
      assert SimpleCycle(g, r.cycles[0]);
      assert ClosedWalk(g, r.cycles[0]);
    } else if Cyclic(g) {
      var c :| ClosedWalk(g, c);
      var first := if |c| > 1 then c[1] else c[0];
      assert Edge(g, c[0], first);
      assert c[0] in g;
      var k :| 0 <= k < |roots| && roots[k] == c[0];
      ChainLowersRank(g, r.visited, c, |c| - 1);
      EdgeLowersRank(g, r.visited, c[|c| - 1], c[0]);
    }
  }

  // ---------------------------------------------------------------------
  // The search with mutable state
  // ---------------------------------------------------------------------

  /**
   * The closure of `findCircularDependencies`: the graph it searches and
   * the three collections `dfs` updates in place.
   */
  class CycleSearch {
    const graph: Graph
    var visiting: set<string>
    var visited: seq<string>
    var cycles: seq<seq<string>>

    function State(): SearchState
      reads this
    {
      SearchState(visiting, visited, cycles)
    }

    constructor(g: Graph)
      ensures graph == g && State() == SearchState({}, [], [])
    {
      graph := g;
      visiting := {};
      visited := [];
      cycles := [];
    }

    /** `dfs(node, path)`, proved to compute `Visit`. */
    method Dfs(node: string, path: seq<string>)
      requires node in Vertices(graph) && node !in visiting
      modifies this
      ensures State() == Visit(graph, node, path, old(State()))
      decreases Vertices(graph) - visiting, 1
    {
      ghost var s0 := State();
      visiting := visiting + {node};
      var p := path + [node];
      ghost var start := State();
      assert start == s0.(visiting := s0.visiting + {node});
      var ns := Neighbors(graph, node);
      var i := 0;
      while i < |ns|
        invariant 0 <= i <= |ns|
        invariant visiting == start.visiting
        invariant VisitNeighbors(graph, node, p, i, State()) == VisitNeighbors(graph, node, p, 0, start)
        decreases |ns| - i
      {
        var nb := ns[i];
        NeighborIsVertex(graph, node, nb);
        ghost var before := State();
        if nb in visiting {
          var cycle := SliceFrom(p, IndexOf(p, nb));
          if !Known(cycles, cycle) {
            cycles := cycles + [cycle];
          }
        } else if nb !in visited {
          Dfs(nb, p);
        }
        assert VisitNeighbors(graph, node, p, i, before) == VisitNeighbors(graph, node, p, i + 1, State());
        i := i + 1;
      }
      visiting := visiting - {node};
      if node !in visited {
        visited := visited + [node];
      }
    }

    /** The outer loop over the snapshot files, proved to compute `SearchFrom`. */
    method SearchAll(roots: seq<string>)
      requires forall k :: 0 <= k < |roots| ==> roots[k] in Vertices(graph)
      requires visiting == {}
      modifies this
      ensures State() == SearchFrom(graph, roots, old(State()))
    {
      var i := 0;
      while i < |roots|
        invariant 0 <= i <= |roots|
        invariant visiting == {}
        invariant SearchFrom(graph, roots[i..], State()) == SearchFrom(graph, roots, old(State()))
      {
        assert roots[i..][1..] == roots[i + 1..];
        if roots[i] !in visited {
          Dfs(roots[i], []);
        }
        i := i + 1;
      }
    }
  }
}
