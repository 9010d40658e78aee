/**
 * The analysis engine of the console (services/analysisEngine.ts): one run
 * parses every file of the snapshot, builds the symbol table, the
 * dependency edges and the usage counts, then reports dead exports, dead
 * files and circular dependencies.
 *
 * The first half states each pass as a function of the snapshot; the class
 * `AnalysisEngine` holds the engine's mutable tables and its methods are
 * proved to compute those functions.
 */
module Analysis {
  import opened Wrappers
  import opened Types
  import opened JsStrings
  import opened Estree
  import opened ImportResolution
  import opened SymbolTable
  import opened CycleDetection

  /** The parser: the syntax tree of a source text, or None when it does not parse. */
  type Parser = string -> Option<Program>

  /** A file that does not parse is analysed as an empty module. */
  function ParseOrEmpty(parser: Parser, content: string): Program
  {
    match parser(content)
    case Some(p) => p
    case None => Program([])
  }

  // ---------------------------------------------------------------------
  // Parsing: the `asts` map
  // ---------------------------------------------------------------------

  /** `asts.set(file.path, ...)` for each file in turn, starting from `acc`. */
  function AstsFrom(acc: map<string, Program>, parser: Parser, files: seq<CodeFile>): map<string, Program>
    decreases |files|
  {
    if files == [] then acc
    else AstsFrom(acc[files[0].path := ParseOrEmpty(parser, files[0].content)], parser, files[1..])
  }

  function Asts(files: seq<CodeFile>, parser: Parser): map<string, Program>
  {
    AstsFrom(map[], parser, files)
  }

  /**
   * Every snapshot path gets a tree, and when a path occurs more than once
   * the last record with that path wins; other keys keep their value.
   */
  lemma {:induction false} AstsFromLookup(acc: map<string, Program>, parser: Parser, files: seq<CodeFile>, p: string)
    ensures p in AstsFrom(acc, parser, files) <==> p in acc || HasPath(files, p)
    ensures !HasPath(files, p) && p in acc ==> AstsFrom(acc, parser, files)[p] == acc[p]
    ensures HasPath(files, p) ==>
              exists i :: 0 <= i < |files| && files[i].path == p
                          && AstsFrom(acc, parser, files)[p] == ParseOrEmpty(parser, files[i].content)
                          && forall j :: i < j < |files| ==> files[j].path != p
    decreases |files|
  {
    if files != [] {
      var acc' := acc[files[0].path := ParseOrEmpty(parser, files[0].content)];
      AstsFromLookup(acc', parser, files[1..], p);
      var r := AstsFrom(acc, parser, files);
      assert HasPath(files, p) <==> files[0].path == p || HasPath(files[1..], p) by {
        if HasPath(files, p) && files[0].path != p {
          var i :| 0 <= i < |files| && files[i].path == p;
          assert files[1..][i - 1].path == p;
        }
        if HasPath(files[1..], p) {
          var i :| 0 <= i < |files[1..]| && files[1..][i].path == p;
          assert files[i + 1].path == p;
        }
      }
      if HasPath(files[1..], p) {
        var i :| 0 <= i < |files[1..]| && files[1..][i].path == p
                 && r[p] == ParseOrEmpty(parser, files[1..][i].content)
                 && forall j :: i < j < |files[1..]| ==> files[1..][j].path != p;
        assert files[i + 1] == files[1..][i];
        forall j | i + 1 < j < |files| ensures files[j].path != p {
          assert files[j] == files[1..][j - 1];
        }
      } else if files[0].path == p {
        forall j | 0 < j < |files| ensures files[j].path != p {
          assert files[j] == files[1..][j - 1];
        }
      }
    }
  }

  /** The tree of a path: `asts.get(path)`, absent as the empty module. */
  function AstOf(asts: map<string, Program>, p: string): Program
  {
    if p in asts then asts[p] else Program([])
  }

  /** A path is analysed with the tree of the last record that holds it. */
  lemma AstOfLast(files: seq<CodeFile>, parser: Parser, i: nat)
    requires i < |files|
    requires forall j :: i < j < |files| ==> files[j].path != files[i].path
    ensures AstOf(Asts(files, parser), files[i].path) == ParseOrEmpty(parser, files[i].content)
  {
    AstsFromLookup(map[], parser, files, files[i].path);
  }

  // ---------------------------------------------------------------------
  // Pass 1: symbols and dependencies
  // ---------------------------------------------------------------------

  /** `symbols.set(file.path, parseSymbols(ast))` for each file that has a tree. */
  function SymbolsFrom(acc: map<string, seq<CodeSymbol>>, asts: map<string, Program>, files: seq<CodeFile>): map<string, seq<CodeSymbol>>
    decreases |files|
  {
    if files == [] then acc
    else
      var p := files[0].path;
      SymbolsFrom(if p in asts then acc[p := SymbolsOf(asts[p].body)] else acc, asts, files[1..])
  }

  /** The key order of a JavaScript Map after `set(p, ...)`: a new key goes last, a known one stays. */
  function AddKey(order: seq<string>, p: string): seq<string>
  {
    if p in order then order else order + [p]
  }

  function OrderFrom(acc: seq<string>, asts: map<string, Program>, files: seq<CodeFile>): seq<string>
    decreases |files|
  {
    if files == [] then acc
    else OrderFrom(if files[0].path in asts then AddKey(acc, files[0].path) else acc, asts, files[1..])
  }

  /** `dependencies.push(...parseDependencies(file.path, ast))` for each file that has a tree. */
  function DepsFrom(acc: seq<Dependency>, all: seq<CodeFile>, asts: map<string, Program>, files: seq<CodeFile>): seq<Dependency>
    decreases |files|
  {
    if files == [] then acc
    else
      var p := files[0].path;
      DepsFrom(if p in asts then acc + DependenciesOf(all, p, asts[p].body) else acc, all, asts, files[1..])
  }

  /** A file that has a tree gets exactly the symbols its module exports. */
  lemma {:induction false} SymbolsFromLookup(acc: map<string, seq<CodeSymbol>>, asts: map<string, Program>, files: seq<CodeFile>, p: string)
    ensures p in SymbolsFrom(acc, asts, files) <==> p in acc || (HasPath(files, p) && p in asts)
    ensures HasPath(files, p) && p in asts ==> SymbolsFrom(acc, asts, files)[p] == SymbolsOf(asts[p].body)
    ensures !(HasPath(files, p) && p in asts) && p in acc ==> SymbolsFrom(acc, asts, files)[p] == acc[p]
    decreases |files|
  {
    if files != [] {
      var q := files[0].path;
      var acc' := if q in asts then acc[q := SymbolsOf(asts[q].body)] else acc;
      SymbolsFromLookup(acc', asts, files[1..], p);
      HasPathCons(files, p);
    }
  }

  lemma HasPathCons(files: seq<CodeFile>, p: string)
    requires files != []
    ensures HasPath(files, p) <==> files[0].path == p || HasPath(files[1..], p)
  {
    if HasPath(files, p) && files[0].path != p {
      var i :| 0 <= i < |files| && files[i].path == p;
      assert files[1..][i - 1].path == p;
    }
    if HasPath(files[1..], p) {
      var i :| 0 <= i < |files[1..]| && files[1..][i].path == p;
      assert files[i + 1].path == p;
    }
  }

  /** The key order lists each path with a tree once, and nothing else is added. */
  lemma {:induction false} OrderFromSpec(acc: seq<string>, asts: map<string, Program>, files: seq<CodeFile>, p: string)
    requires Distinct(acc)
    ensures Distinct(OrderFrom(acc, asts, files))
    ensures acc <= OrderFrom(acc, asts, files)
    ensures p in OrderFrom(acc, asts, files) <==> p in acc || (HasPath(files, p) && p in asts)
    decreases |files|
  {
    if files != [] {
      var q := files[0].path;
      var acc' := if q in asts then AddKey(acc, q) else acc;
      assert Distinct(acc') by {
        if q in asts && q !in acc {
          forall a, b | 0 <= a < b < |acc'| ensures acc'[a] != acc'[b] {
            if b == |acc| { assert acc'[a] in acc; }
          }
        }
      }
      OrderFromSpec(acc', asts, files[1..], p);
      HasPathCons(files, p);
    }
  }

  /**
   * An edge is recorded exactly when some file with a tree has an import
   * that resolves to it; each file contributes its own edges in order.
   */
  lemma {:induction false} DepsFromIff(acc: seq<Dependency>, all: seq<CodeFile>, asts: map<string, Program>, files: seq<CodeFile>, d: Dependency)
    ensures d in DepsFrom(acc, all, asts, files) <==>
            d in acc || exists i :: 0 <= i < |files| && files[i].path in asts
                                    && d in DependenciesOf(all, files[i].path, asts[files[i].path].body)
    decreases |files|
  {
    if files != [] {
      var q := files[0].path;
      var acc' := if q in asts then acc + DependenciesOf(all, q, asts[q].body) else acc;
      DepsFromIff(acc', all, asts, files[1..], d);
      if exists i :: 0 <= i < |files| && files[i].path in asts && d in DependenciesOf(all, files[i].path, asts[files[i].path].body) {
        var i :| 0 <= i < |files| && files[i].path in asts && d in DependenciesOf(all, files[i].path, asts[files[i].path].body);
        if i > 0 { assert files[1..][i - 1] == files[i]; }
      }
      if exists i :: 0 <= i < |files[1..]| && files[1..][i].path in asts && d in DependenciesOf(all, files[1..][i].path, asts[files[1..][i].path].body) {
        var i :| 0 <= i < |files[1..]| && files[1..][i].path in asts && d in DependenciesOf(all, files[1..][i].path, asts[files[1..][i].path].body);
        assert files[i + 1] == files[1..][i];
      }
    }
  }

  // ---------------------------------------------------------------------
  // Pass 2: usages
  // ---------------------------------------------------------------------

  /** The names imported by every file with a tree, files in snapshot order. */
  function AllImports(asts: map<string, Program>, files: seq<CodeFile>): seq<string>
    decreases |files|
  {
    if files == [] then []
    else
      (if files[0].path in asts then ImportedNames(asts[files[0].path].body) else []) + AllImports(asts, files[1..])
  }

  lemma {:induction false} AllImportsIff(asts: map<string, Program>, files: seq<CodeFile>, n: string)
    ensures n in AllImports(asts, files) <==>
            exists i :: 0 <= i < |files| && files[i].path in asts && n in ImportedNames(asts[files[i].path].body)
    decreases |files|
  {
    if files != [] {
      AllImportsIff(asts, files[1..], n);
      if exists i :: 0 <= i < |files| && files[i].path in asts && n in ImportedNames(asts[files[i].path].body) {
        var i :| 0 <= i < |files| && files[i].path in asts && n in ImportedNames(asts[files[i].path].body);
        if i > 0 { assert files[1..][i - 1] == files[i]; }
      }
      if exists i :: 0 <= i < |files[1..]| && files[1..][i].path in asts && n in ImportedNames(asts[files[1..][i].path].body) {
        var i :| 0 <= i < |files[1..]| && files[1..][i].path in asts && n in ImportedNames(asts[files[1..][i].path].body);
        assert files[i + 1] == files[1..][i];
      }
    }
  }

  // ---------------------------------------------------------------------
  // The dependency graph
  // ---------------------------------------------------------------------

  /** `files.forEach(f => graph[f.path] = [])`. */
  function InitGraph(acc: Graph, files: seq<CodeFile>): Graph
    decreases |files|
  {
    if files == [] then acc else InitGraph(acc[files[0].path := []], files[1..])
  }

  /** `dependencies.forEach(dep => { if (graph[dep.from]) graph[dep.from].push(dep.to) })`. */
  function AddEdges(g: Graph, deps: seq<Dependency>): Graph
    decreases |deps|
  {
    if deps == [] then g
    else
      var d := deps[0];
      AddEdges(if d.from in g then g[d.from := g[d.from] + [d.to]] else g, deps[1..])
  }

  function BuildGraph(files: seq<CodeFile>, deps: seq<Dependency>): Graph
  {
    AddEdges(InitGraph(map[], files), deps)
  }

  /** The targets of the edges leaving `n`, in edge order. */
  function Targets(deps: seq<Dependency>, n: string): seq<string>
    decreases |deps|
  {
    if deps == [] then []
    else (if deps[0].from == n then [deps[0].to] else []) + Targets(deps[1..], n)
  }

  lemma {:induction false} TargetsIff(deps: seq<Dependency>, n: string, v: string)
    ensures v in Targets(deps, n) <==> Dependency(n, v) in deps
    decreases |deps|
  {
    if deps != [] {
      TargetsIff(deps[1..], n, v);
      assert deps == [deps[0]] + deps[1..];
    }
  }

  lemma {:induction false} InitGraphSpec(acc: Graph, files: seq<CodeFile>, n: string)
    ensures n in InitGraph(acc, files) <==> n in acc || HasPath(files, n)
    ensures HasPath(files, n) ==> InitGraph(acc, files)[n] == []
    ensures !HasPath(files, n) && n in acc ==> InitGraph(acc, files)[n] == acc[n]
    decreases |files|
  {
    if files != [] {
      InitGraphSpec(acc[files[0].path := []], files[1..], n);
      HasPathCons(files, n);
    }
  }

  lemma {:induction false} AddEdgesSpec(g: Graph, deps: seq<Dependency>, n: string)
    ensures n in AddEdges(g, deps) <==> n in g
    ensures n in g ==> AddEdges(g, deps)[n] == g[n] + Targets(deps, n)
    decreases |deps|
  {
    if deps != [] {
      var d := deps[0];
      var g' := if d.from in g then g[d.from := g[d.from] + [d.to]] else g;
      AddEdgesSpec(g', deps[1..], n);
      if n in g {
        if d.from == n {
          assert g[n] + [d.to] + Targets(deps[1..], n) == g[n] + Targets(deps, n);
        }
      }
    }
  }

  /**
   * The graph has a key for every snapshot path and no other, and the
   * neighbours of a path are the targets of its edges, in edge order.
   */
  lemma BuildGraphSpec(files: seq<CodeFile>, deps: seq<Dependency>, n: string)
    ensures n in BuildGraph(files, deps) <==> HasPath(files, n)
    ensures Neighbors(BuildGraph(files, deps), n) == (if HasPath(files, n) then Targets(deps, n) else [])
  {
    InitGraphSpec(map[], files, n);
    AddEdgesSpec(InitGraph(map[], files), deps, n);
  }

  /** With every edge leaving a snapshot file, the graph's edges are exactly the dependencies. */
  lemma BuildGraphEdge(files: seq<CodeFile>, deps: seq<Dependency>, a: string, b: string)
    requires forall d :: d in deps ==> HasPath(files, d.from)
    ensures Edge(BuildGraph(files, deps), a, b) <==> Dependency(a, b) in deps
  {
    BuildGraphSpec(files, deps, a);
    TargetsIff(deps, a, b);
    if Dependency(a, b) in deps {
      assert HasPath(files, Dependency(a, b).from);
    }
  }

  // ---------------------------------------------------------------------
  // The whole run
  // ---------------------------------------------------------------------

  /** `path.split('/').pop() || path`: the last segment, or the path itself when that is empty. */
  function GetFileName(path: string): (name: string)
    ensures LastIndexOf(path, '/') < 0 ==> name == path
    ensures 0 <= LastIndexOf(path, '/') < |path| - 1 ==>
              name == path[LastIndexOf(path, '/') + 1..] && '/' !in name && name != ""
    ensures LastIndexOf(path, '/') == |path| - 1 ==> name == path
  {
    var parts := Split(path, '/');
    LastPieceOfSplit(path, '/');
    var last := parts[|parts| - 1];
    if last != "" then last else path
  }

  /** `cycles.map(cycle => cycle.map(path => getFileName(path)))`. */
  function FileNames(cycles: seq<seq<string>>): (names: seq<seq<string>>)
    ensures |names| == |cycles|
    ensures forall k :: 0 <= k < |cycles| ==> |names[k]| == |cycles[k]|
    ensures forall k, j :: 0 <= k < |cycles| && 0 <= j < |cycles[k]| ==> names[k][j] == GetFileName(cycles[k][j])
  {
    seq(|cycles|, k requires 0 <= k < |cycles| =>
      seq(|cycles[k]|, j requires 0 <= j < |cycles[k]| => GetFileName(cycles[k][j])))
  }

  lemma PathsAreVertices(files: seq<CodeFile>, deps: seq<Dependency>)
    ensures forall k :: 0 <= k < |Paths(files)| ==> Paths(files)[k] in Vertices(BuildGraph(files, deps))
  {
    forall k | 0 <= k < |Paths(files)| ensures Paths(files)[k] in Vertices(BuildGraph(files, deps)) {
      BuildGraphSpec(files, deps, Paths(files)[k]);
      assert files[k].path == Paths(files)[k];
    }
  }

  /** The cycles of the run: a search from every snapshot path, in snapshot order. */
  function CyclesOf(files: seq<CodeFile>, deps: seq<Dependency>): seq<seq<string>>
  {
    PathsAreVertices(files, deps);
    FindCycles(BuildGraph(files, deps), Paths(files))
  }

  /** The symbol table after pass 1 of a run. */
  function SymbolsAfter(files: seq<CodeFile>, parser: Parser): map<string, seq<CodeSymbol>>
  {
    SymbolsFrom(map[], Asts(files, parser), files)
  }

  /** The usage counts after pass 2 of a run. */
  function UsagesAfter(files: seq<CodeFile>, parser: Parser): map<string, int>
  {
    CountNames(map[], files, SymbolsAfter(files, parser), AllImports(Asts(files, parser), files))
  }

  /** The dependency edges after pass 1 of a run. */
  function DepsAfter(files: seq<CodeFile>, parser: Parser): seq<Dependency>
  {
    DepsFrom([], files, Asts(files, parser), files)
  }

  /** `runFullAnalysis()` on a fresh engine. */
  function Analyze(files: seq<CodeFile>, parser: Parser): AnalysisResult
  {
    var asts := Asts(files, parser);
    var symbols := SymbolsAfter(files, parser);
    var order := OrderFrom([], asts, files);
    var deps := DepsAfter(files, parser);
    var usages := UsagesAfter(files, parser);
    var dead := DeadSymbols(order, symbols, usages);
    var cycles := CyclesOf(files, deps);
    AnalysisResult(deps, symbols, order, dead, DeadFiles(files, symbols, dead), FileNames(cycles), cycles)
  }

  // ---------------------------------------------------------------------
  // What a run reports
  // ---------------------------------------------------------------------

  /** Every snapshot path has a tree. */
  lemma AstsCoverFiles(files: seq<CodeFile>, parser: Parser, p: string)
    ensures p in Asts(files, parser) <==> HasPath(files, p)
  {
    AstsFromLookup(map[], parser, files, p);
  }

  /**
   * The symbol table has one entry per snapshot path, in first-occurrence
   * order and without repetition, holding what that path's module exports.
   */
  lemma AnalyzeSymbols(files: seq<CodeFile>, parser: Parser, p: string)
    ensures p in Analyze(files, parser).symbols <==> HasPath(files, p)
    ensures p in Analyze(files, parser).symbolOrder <==> HasPath(files, p)
    ensures Distinct(Analyze(files, parser).symbolOrder)
    ensures HasPath(files, p) ==>
              Lookup(Analyze(files, parser).symbols, p) == SymbolsOf(AstOf(Asts(files, parser), p).body)
  {
    AstsCoverFiles(files, parser, p);
    SymbolsFromLookup(map[], Asts(files, parser), files, p);
    OrderFromSpec([], Asts(files, parser), files, p);
  }

  /**
   * An edge `from -> to` is reported exactly when the snapshot file `from`
   * has an import statement that resolves to the snapshot file `to`.
   */
  lemma AnalyzeDependencies(files: seq<CodeFile>, parser: Parser, d: Dependency)
    ensures d in Analyze(files, parser).dependencies <==>
            HasPath(files, d.from) &&
            exists j :: 0 <= j < |AstOf(Asts(files, parser), d.from).body|
                        && ImportTarget(files, d.from, AstOf(Asts(files, parser), d.from).body[j]) == Some(d.to)
    ensures d in Analyze(files, parser).dependencies ==> HasPath(files, d.to)
  {
    var asts := Asts(files, parser);
    DepsFromIff([], files, asts, files, d);
    AstsCoverFiles(files, parser, d.from);
    if d in DepsAfter(files, parser) {
      var i :| 0 <= i < |files| && files[i].path in asts && d in DependenciesOf(files, files[i].path, asts[files[i].path].body);
      DependenciesOfIff(files, files[i].path, asts[files[i].path].body, d);
      assert HasPath(files, d.from);
    }
    if HasPath(files, d.from) {
      var i :| 0 <= i < |files| && files[i].path == d.from;
      DependenciesOfIff(files, d.from, AstOf(asts, d.from).body, d);
    }
  }

  /** Every edge of a run leaves a snapshot file. */
  lemma DepsLeaveFiles(files: seq<CodeFile>, parser: Parser)
    ensures forall d :: d in DepsAfter(files, parser) ==> HasPath(files, d.from)
  {
    forall d | d in DepsAfter(files, parser) ensures HasPath(files, d.from) {
      AnalyzeDependencies(files, parser, d);
    }
  }

  /**
   * A usage key is present exactly when some imported name of the snapshot
   * is charged to it, and then it counts at least one import.
   */
  lemma AnalyzeUsages(files: seq<CodeFile>, parser: Parser, key: string)
    ensures key in UsagesAfter(files, parser) <==>
            exists i :: 0 <= i < |AllImports(Asts(files, parser), files)|
                        && UsageKey(files, SymbolsAfter(files, parser), AllImports(Asts(files, parser), files)[i]) == Some(key)
    ensures key in UsagesAfter(files, parser) ==> UsagesAfter(files, parser)[key] >= 1
  {
    var names := AllImports(Asts(files, parser), files);
    var symbols := SymbolsAfter(files, parser);
    assert UsagesAfter(files, parser) == CountNames(map[], files, symbols, names);
    UsagesFromEmpty(files, symbols, names, key);
    if key in UsagesAfter(files, parser) {
      var i :| 0 <= i < |names| && UsageKey(files, symbols, names[i]) == Some(key);
      assert UsageKey(files, SymbolsAfter(files, parser), AllImports(Asts(files, parser), files)[i]) == Some(key);
    }
  }

  /**
   * With identifiers free of ':', an export `n` of `p` is reported dead
   * exactly when it is not the case that some file imports `n` by name
   * and `p` is the first snapshot file exporting `n`.
   */
  lemma AnalyzeDeadSymbols(files: seq<CodeFile>, parser: Parser, p: string, n: string)
    requires ':' !in n
    requires forall k :: 0 <= k < |AllImports(Asts(files, parser), files)| ==> ':' !in AllImports(Asts(files, parser), files)[k]
    ensures DeadSymbol(p, n) in Analyze(files, parser).deadCodeSymbols <==>
            HasPath(files, p) && Exports(Lookup(Analyze(files, parser).symbols, p), n)
            && !(n in AllImports(Asts(files, parser), files)
                 && FirstExporter(files, SymbolsAfter(files, parser), n) == Some(p))
  {
    var asts := Asts(files, parser);
    var symbols := SymbolsAfter(files, parser);
    var order := OrderFrom([], asts, files);
    var usages := UsagesAfter(files, parser);
    var r := Analyze(files, parser);
    assert r.deadCodeSymbols == DeadSymbols(order, symbols, usages);
    assert r.symbols == symbols;
    DeadSymbolsIff(order, symbols, usages, DeadSymbol(p, n));
    AnalyzeSymbols(files, parser, p);
    AnalyzeUsages(files, parser, Key(p, n));
    KeyChargedIff(files, symbols, AllImports(asts, files), p, n);
    ExportsAt(Lookup(symbols, p), n);
  }

  /**
   * A snapshot file is reported dead exactly when it exports something and
   * none of its exports has a usage.
   */
  lemma AnalyzeDeadFiles(files: seq<CodeFile>, parser: Parser, p: string)
    ensures p in Analyze(files, parser).deadCodeFiles <==>
            HasPath(files, p) && |Lookup(Analyze(files, parser).symbols, p)| > 0
            && forall k :: 0 <= k < |Lookup(Analyze(files, parser).symbols, p)| ==>
                 Key(p, Lookup(Analyze(files, parser).symbols, p)[k].name) !in UsagesAfter(files, parser)
  {
    var r := Analyze(files, parser);
    var asts := Asts(files, parser);
    var symbols := SymbolsAfter(files, parser);
    var order := OrderFrom([], asts, files);
    AnalyzeSymbols(files, parser, p);
    if HasPath(files, p) {
      DeadFileIffUnused(order, symbols, UsagesAfter(files, parser), p);
      if IsDeadFile(symbols, p, r.deadCodeSymbols) {
        DeadFilesComplete(files, symbols, r.deadCodeSymbols, p);
      }
    }
  }

  /** Consecutive files of `c` import one another, the last importing the first. */
  predicate DependencyCycle(deps: seq<Dependency>, c: seq<string>)
  {
    |c| > 0 && Distinct(c)
    && (forall k :: 0 <= k < |c| - 1 ==> Dependency(c[k], c[k + 1]) in deps)
    && Dependency(c[|c| - 1], c[0]) in deps
  }

  /**
   * Every reported cycle is a cycle of import edges through distinct files,
   * no two reported cycles are over the same files, the short form of a
   * cycle lists the file names of the full one, and no cycle is reported
   * exactly when the dependency graph has no closed walk.
   */
  lemma AnalyzeCycles(files: seq<CodeFile>, parser: Parser)
    ensures forall k :: 0 <= k < |Analyze(files, parser).circularDependencyFiles| ==>
              DependencyCycle(Analyze(files, parser).dependencies, Analyze(files, parser).circularDependencyFiles[k])
    ensures forall a, b :: 0 <= a < b < |Analyze(files, parser).circularDependencyFiles| ==>
              multiset(Analyze(files, parser).circularDependencyFiles[a])
              != multiset(Analyze(files, parser).circularDependencyFiles[b])
    ensures Analyze(files, parser).circularDependencies == FileNames(Analyze(files, parser).circularDependencyFiles)
    ensures Analyze(files, parser).circularDependencyFiles == [] <==>
              !Cyclic(BuildGraph(files, Analyze(files, parser).dependencies))
  {
    var deps := DepsAfter(files, parser);
    var g := BuildGraph(files, deps);
    var roots := Paths(files);
    PathsAreVertices(files, deps);
    FindCyclesSound(g, roots);
    forall n | n in g ensures n in roots {
      BuildGraphSpec(files, deps, n);
      var i :| 0 <= i < |files| && files[i].path == n;
      assert roots[i] == n;
    }
    FindCyclesComplete(g, roots);
    DepsLeaveFiles(files, parser);
    SimpleCyclesAreDependencyCycles(files, deps, FindCycles(g, roots));
  }

  /** A simple cycle of the graph built from the edges runs along those edges. */
  lemma SimpleCyclesAreDependencyCycles(files: seq<CodeFile>, deps: seq<Dependency>, cs: seq<seq<string>>)
    requires forall d :: d in deps ==> HasPath(files, d.from)
    requires forall k :: 0 <= k < |cs| ==> SimpleCycle(BuildGraph(files, deps), cs[k])
    ensures forall k :: 0 <= k < |cs| ==> DependencyCycle(deps, cs[k])
  {
    var g := BuildGraph(files, deps);
    forall k | 0 <= k < |cs| ensures DependencyCycle(deps, cs[k]) {
      var c := cs[k];
      assert SimpleCycle(g, c);
      forall j | 0 <= j < |c| - 1 ensures Dependency(c[j], c[j + 1]) in deps {
        BuildGraphEdge(files, deps, c[j], c[j + 1]);
      }
      BuildGraphEdge(files, deps, c[|c| - 1], c[0]);
    }
  }

  // ---------------------------------------------------------------------
  // The engine
  // ---------------------------------------------------------------------

  /**
   * `AnalysisEngine`: the snapshot it was built with and the tables a run
   * fills in place.
   */
  class AnalysisEngine {
    const files: seq<CodeFile>
    const parser: Parser
    var dependencies: seq<Dependency>
    var symbols: map<string, seq<CodeSymbol>>
    /** The key order of the `symbols` Map. */
    var symbolOrder: seq<string>
    var usages: map<string, int>

    constructor(files: seq<CodeFile>, parser: Parser)
      ensures this.files == files && this.parser == parser
      ensures dependencies == [] && symbols == map[] && symbolOrder == [] && usages == map[]
    {
      this.files := files;
      this.parser := parser;
      dependencies := [];
      symbols := map[];
      symbolOrder := [];
      usages := map[];
    }

    /**
     * `runFullAnalysis()`: whatever the tables held before, the result and
     * the new tables are those of a run on a fresh engine.
     */
    method RunFullAnalysis() returns (r: AnalysisResult)
      modifies this
      ensures r == Analyze(files, parser)
      ensures dependencies == r.dependencies && symbols == r.symbols && symbolOrder == r.symbolOrder
      ensures usages == UsagesAfter(files, parser)
    {
      Reset();
      ParseAllFiles();
      var deadSymbols, deadFiles := FindDeadCode();
      var cycles, cycleFiles := FindCircularDependencies();
      r := AnalysisResult(dependencies, symbols, symbolOrder, deadSymbols, deadFiles, cycles, cycleFiles);
    }

    method Reset()
      modifies this
      ensures dependencies == [] && symbols == map[] && symbolOrder == [] && usages == map[]
    {
      dependencies := [];
      symbols := map[];
      symbolOrder := [];
      usages := map[];
    }

    /**
     * `parseAllFiles()`: parse every file, then pass 1 (symbols and edges)
     * and pass 2 (usage counts) over the snapshot, each adding to the
     * tables as they are.
     */
    method ParseAllFiles()
      modifies this
      ensures symbols == SymbolsFrom(old(symbols), Asts(files, parser), files)
      ensures symbolOrder == OrderFrom(old(symbolOrder), Asts(files, parser), files)
      ensures dependencies == DepsFrom(old(dependencies), files, Asts(files, parser), files)
      ensures usages == CountNames(old(usages), files, symbols, AllImports(Asts(files, parser), files))
    {
      var asts := ParseAsts();
      CollectSymbolsAndDependencies(asts);
      CountUsages(asts);
    }

    /** The parsing loop of `parseAllFiles`: an empty module stands for a file that does not parse. */
    method ParseAsts() returns (asts: map<string, Program>)
      ensures asts == Asts(files, parser)
    {
      asts := map[];
      var i := 0;
      while i < |files|
        invariant 0 <= i <= |files|
        invariant AstsFrom(asts, parser, files[i..]) == Asts(files, parser)
      {
        assert files[i..][1..] == files[i + 1..];
        asts := asts[files[i].path := ParseOrEmpty(parser, files[i].content)];
        i := i + 1;
      }
      assert files[i..] == [];
    }

    /** Pass 1 of `parseAllFiles`: record each file's symbols and append its edges. */
    method CollectSymbolsAndDependencies(asts: map<string, Program>)
      modifies this
      ensures symbols == SymbolsFrom(old(symbols), asts, files)
      ensures symbolOrder == OrderFrom(old(symbolOrder), asts, files)
      ensures dependencies == DepsFrom(old(dependencies), files, asts, files)
      ensures usages == old(usages)
    {
      var i := 0;
      while i < |files|
        invariant 0 <= i <= |files|
        invariant SymbolsFrom(symbols, asts, files[i..]) == SymbolsFrom(old(symbols), asts, files)
        invariant OrderFrom(symbolOrder, asts, files[i..]) == OrderFrom(old(symbolOrder), asts, files)
        invariant DepsFrom(dependencies, files, asts, files[i..]) == DepsFrom(old(dependencies), files, asts, files)
        invariant usages == old(usages)
      {
        assert files[i..][1..] == files[i + 1..];
        var path := files[i].path;
        if path in asts {
          var ast := asts[path];
          var fileSymbols := ParseSymbols(ast);
          symbols := symbols[path := fileSymbols];
          if path !in symbolOrder {
            symbolOrder := symbolOrder + [path];
          }
          var deps := ParseDependencies(path, ast);
          dependencies := dependencies + deps;
        }
        i := i + 1;
      }
      assert files[i..] == [];
    }

    /** Pass 2 of `parseAllFiles`: charge every imported name, file by file. */
    method CountUsages(asts: map<string, Program>)
      modifies this
      ensures usages == CountNames(old(usages), files, symbols, AllImports(asts, files))
      ensures symbols == old(symbols) && symbolOrder == old(symbolOrder) && dependencies == old(dependencies)
    {
      var i := 0;
      while i < |files|
        invariant 0 <= i <= |files|
        invariant symbols == old(symbols) && symbolOrder == old(symbolOrder) && dependencies == old(dependencies)
        invariant CountNames(usages, files, symbols, AllImports(asts, files[i..]))
                  == CountNames(old(usages), files, symbols, AllImports(asts, files))
      {
        assert files[i..][1..] == files[i + 1..];
        var path := files[i].path;
        ghost var rest := AllImports(asts, files[i + 1..]);
        if path in asts {
          var importedSymbols := GetImportedSymbols(asts[path]);
          assert AllImports(asts, files[i..]) == importedSymbols + rest;
          CountNamesAppend(usages, files, symbols, importedSymbols, rest);
          ChargeNames(importedSymbols);
        } else {
          assert AllImports(asts, files[i..]) == rest;
        }
        i := i + 1;
      }
      assert files[i..] == [];
    }

    /** The inner loop of pass 2: find the first exporter of each name and bump its key. */
    method ChargeNames(importedSymbols: seq<string>)
      modifies this
      ensures usages == CountNames(old(usages), files, symbols, importedSymbols)
      ensures symbols == old(symbols) && symbolOrder == old(symbolOrder) && dependencies == old(dependencies)
    {
      var j := 0;
      while j < |importedSymbols|
        invariant 0 <= j <= |importedSymbols|
        invariant symbols == old(symbols) && symbolOrder == old(symbolOrder) && dependencies == old(dependencies)
        invariant CountNames(usages, files, symbols, importedSymbols[j..]) == CountNames(old(usages), files, symbols, importedSymbols)
      {
        assert importedSymbols[j..][1..] == importedSymbols[j + 1..];
        var symbolName := importedSymbols[j];
        var exportingFile := FirstExporter(files, symbols, symbolName);
        if exportingFile.Some? {
          var key := Key(exportingFile.value, symbolName);
          usages := usages[key := Count(usages, key) + 1];
        }
        j := j + 1;
      }
      assert importedSymbols[j..] == [];
    }

    /** `parseSymbols(ast)`: the exports of the module, in statement order. */
    method ParseSymbols(ast: Program) returns (syms: seq<CodeSymbol>)
      ensures syms == SymbolsOf(ast.body)
    {
      var body := ast.body;
      syms := [];
      var i := 0;
      while i < |body|
        invariant 0 <= i <= |body|
        invariant syms + SymbolsOf(body[i..]) == SymbolsOf(body)
      {
        SymbolsOfStep(body, i);
        var found: seq<CodeSymbol> := [];
        var sym := SymbolOf(body[i]);
        if sym.Some? {
          found := [sym.value];
        }
        AppendAssoc(syms, found, SymbolsOf(body[i + 1..]));
        syms := syms + found;
        i := i + 1;
      }
      assert body[i..] == [];
    }

    /** `parseDependencies(filePath, ast)`: one edge per import that resolves to a snapshot file. */
    method ParseDependencies(filePath: string, ast: Program) returns (deps: seq<Dependency>)
      ensures deps == DependenciesOf(files, filePath, ast.body)
    {
      var body := ast.body;
      deps := [];
      var basePath := BasePath(filePath);
      var i := 0;
      while i < |body|
        invariant 0 <= i <= |body|
        invariant deps + DependenciesOf(files, filePath, body[i..]) == DependenciesOf(files, filePath, body)
      {
        DependenciesOfStep(files, filePath, body, i);
        var edge := ImportEdge(filePath, basePath, body[i]);
        AppendAssoc(deps, edge, DependenciesOf(files, filePath, body[i + 1..]));
        deps := deps + edge;
        i := i + 1;
      }
      assert body[i..] == [];
    }

    /** The body of the statement loop of `parseDependencies`. */
    method ImportEdge(filePath: string, basePath: string, node: Node) returns (edge: seq<Dependency>)
      requires basePath == BasePath(filePath)
      ensures edge == EdgesOf(files, filePath, node)
    {
      edge := [];
      if node.ImportDeclaration? && node.source != "" {
        var importPath := StripTsExtension(node.source);
        var pathParts := ResolveSegments(Split(basePath, '/'), Split(importPath, '/'));
        var resolvedPath := Join(pathParts, '/') + ".ts";
        var targetFile := FindTarget(files, resolvedPath);
        if targetFile.Some? {
          edge := [Dependency(filePath, targetFile.value)];
        }
      }
    }

    /**
     * The segment loop of `parseDependencies`: ".." pops, "." is skipped,
     * anything else is pushed.
     */
    static method ResolveSegments(basePathParts: seq<string>, importParts: seq<string>) returns (pathParts: seq<string>)
      ensures pathParts == ApplySegments(basePathParts, importParts)
    {
      pathParts := basePathParts;
      var j := 0;
      while j < |importParts|
        invariant 0 <= j <= |importParts|
        invariant ApplySegments(pathParts, importParts[j..]) == ApplySegments(basePathParts, importParts)
      {
        assert importParts[j..][1..] == importParts[j + 1..];
        var part := importParts[j];
        if part == ".." {
          if pathParts != [] {
            pathParts := pathParts[..|pathParts| - 1];
          }
        } else if part != "." {
          pathParts := pathParts + [part];
        }
        j := j + 1;
      }
      assert importParts[j..] == [];
    }

    /** `getImportedSymbols(ast)`: the names of the named import specifiers, in order. */
    method GetImportedSymbols(ast: Program) returns (names: seq<string>)
      ensures names == ImportedNames(ast.body)
    {
      var body := ast.body;
      names := [];
      var i := 0;
      while i < |body|
        invariant 0 <= i <= |body|
        invariant names + ImportedNames(body[i..]) == ImportedNames(body)
      {
        var node := body[i];
        ImportedNamesStep(body, i);
        var found: seq<string> := [];
        if node.ImportDeclaration? {
          found := ImportSpecifierNames(node.specifiers);
        }
        AppendAssoc(names, found, ImportedNames(body[i + 1..]));
        names := names + found;
        i := i + 1;
      }
      assert body[i..] == [];
    }

    /** The inner `specifiers.forEach` of `getImportedSymbols`: the named specifiers' imported names, in order. */
    method ImportSpecifierNames(specs: seq<ModuleSpecifier>) returns (found: seq<string>)
      ensures found == SpecifierNames(specs)
    {
      found := [];
      var j := 0;
      while j < |specs|
        invariant 0 <= j <= |specs|
        invariant found + SpecifierNames(specs[j..]) == SpecifierNames(specs)
      {
        SpecifierNamesStep(specs, j);
        var name: seq<string> := [];
        if specs[j].ImportSpecifier? {
          name := [specs[j].imported];
        }
        AppendAssoc(found, name, SpecifierNames(specs[j + 1..]));
        found := found + name;
        j := j + 1;
      }
      assert specs[j..] == [];
    }

    /** `findDeadCode()`: dead exports in table order, then the files all of whose exports are dead. */
    method FindDeadCode() returns (deadSymbols: seq<DeadSymbol>, deadFiles: seq<string>)
      ensures deadSymbols == DeadSymbols(symbolOrder, symbols, usages)
      ensures deadFiles == DeadFiles(files, symbols, deadSymbols)
    {
      deadSymbols := [];
      var i := 0;
      while i < |symbolOrder|
        invariant 0 <= i <= |symbolOrder|
        invariant deadSymbols + DeadSymbols(symbolOrder[i..], symbols, usages) == DeadSymbols(symbolOrder, symbols, usages)
      {
        DeadSymbolsStep(symbolOrder, symbols, usages, i);
        var path := symbolOrder[i];
        var dead := DeadSymbolsOfFile(path, Lookup(symbols, path));
        AppendAssoc(deadSymbols, dead, DeadSymbols(symbolOrder[i + 1..], symbols, usages));
        deadSymbols := deadSymbols + dead;
        i := i + 1;
      }
      assert symbolOrder[i..] == [];
      deadFiles := DeadFiles(files, symbols, deadSymbols);
    }

    /** The inner loop of `findDeadCode`: the exports of one file whose key has no usage. */
    method DeadSymbolsOfFile(path: string, fileSymbols: seq<CodeSymbol>) returns (dead: seq<DeadSymbol>)
      ensures dead == DeadSymbolsOf(path, fileSymbols, usages)
    {
      dead := [];
      var j := 0;
      while j < |fileSymbols|
        invariant 0 <= j <= |fileSymbols|
        invariant dead + DeadSymbolsOf(path, fileSymbols[j..], usages) == DeadSymbolsOf(path, fileSymbols, usages)
      {
        DeadSymbolsOfStep(path, fileSymbols, usages, j);
        var symbol := fileSymbols[j];
        var found: seq<DeadSymbol> := [];
        if symbol.exported {
          var key := Key(path, symbol.name);
          if key !in usages {
            found := [DeadSymbol(path, symbol.name)];
          }
        }
        AppendAssoc(dead, found, DeadSymbolsOf(path, fileSymbols[j + 1..], usages));
        dead := dead + found;
        j := j + 1;
      }
      assert fileSymbols[j..] == [];
    }

    /**
     * `findCircularDependencies()`: build the graph, search from every
     * snapshot file, and return the cycles as file names and as full paths.
     */
    method FindCircularDependencies() returns (cycles: seq<seq<string>>, cycleFiles: seq<seq<string>>)
      ensures cycleFiles == CyclesOf(files, dependencies)
      ensures cycles == FileNames(cycleFiles)
    {
      var graph: Graph := map[];
      var i := 0;
      while i < |files|
        invariant 0 <= i <= |files|
        invariant InitGraph(graph, files[i..]) == InitGraph(map[], files)
      {
        assert files[i..][1..] == files[i + 1..];
        graph := graph[files[i].path := []];
        i := i + 1;
      }
      assert files[i..] == [];
      i := 0;
      while i < |dependencies|
        invariant 0 <= i <= |dependencies|
        invariant AddEdges(graph, dependencies[i..]) == BuildGraph(files, dependencies)
      {
        assert dependencies[i..][1..] == dependencies[i + 1..];
        var dep := dependencies[i];
        if dep.from in graph {
          graph := graph[dep.from := graph[dep.from] + [dep.to]];
        }
        i := i + 1;
      }
      assert dependencies[i..] == [];
      PathsAreVertices(files, dependencies);
      var search := new CycleSearch(graph);
      search.SearchAll(Paths(files));
      cycleFiles := search.cycles;
      cycles := FileNames(cycleFiles);
    }
  }
}
