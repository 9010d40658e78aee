/**
 * The snapshot the console opens with (constants.ts, MOCK_FILE_SYSTEM) and
 * what one analysis run reports on it. client.ts and auth.ts import each
 * other. The two components use the client and the formatters. The legacy
 * module is imported by nobody.
 *
 * The run is worked out for any six distinct paths laid out like the seed
 * (`SeedLayout`, `WellPlaced`), given a parser that reads each file as the
 * syntax tree written out below; `MockFileSystemAnalysis` then instantiates
 * it with the seed's own paths and contents.
 */
module Seed {
  import opened Wrappers
  import opened Types
  import opened Estree
  import opened JsStrings
  import opened ImportResolution
  import opened SymbolTable
  import opened CycleDetection
  import opened Analysis

  /**
   * The six paths of the snapshot in snapshot order, the three import
   * specifiers it uses and the nine names it declares.
   */
  datatype SeedLayout = SeedLayout(
    client: string, auth: string, formatters: string, userProfile: string, settings: string, oldUtils: string,
    authImport: string, clientImport: string, formattersImport: string,
    getAuthToken: string, setAuthToken: string, apiClient: string, formatDate: string, formatCurrency: string,
    userProfileName: string, settingsName: string, oldUnusedFunction: string, anotherOldOne: string)

  // ---------------------------------------------------------------------
  // The syntax trees of the six files
  // ---------------------------------------------------------------------

  function ExportedFunction(name: string): Node
  {
    ExportNamedDeclaration(Some(FunctionDeclaration(name)))
  }

  function NamedImport(source: string, name: string): Node
  {
    ImportDeclaration(source, [ImportSpecifier(name, name)])
  }

  /** client.ts: imports getAuthToken from auth.ts and exports the class ApiClient. */
  function ClientTree(l: SeedLayout): Program
  {
    Program([NamedImport(l.authImport, l.getAuthToken), ExportNamedDeclaration(Some(ClassDeclaration(l.apiClient)))])
  }

  /** auth.ts: imports ApiClient, declares the token, exports getAuthToken and setAuthToken. */
  function AuthTree(l: SeedLayout): Program
  {
    Program([NamedImport(l.clientImport, l.apiClient), OtherStatement,
             ExportedFunction(l.getAuthToken), ExportedFunction(l.setAuthToken)])
  }

  /** formatters.ts: exports formatDate and formatCurrency. */
  function FormattersTree(l: SeedLayout): Program
  {
    Program([ExportedFunction(l.formatDate), ExportedFunction(l.formatCurrency)])
  }

  /** A component: imports ApiClient and one formatter, and exports itself as a constant. */
  function ComponentTree(l: SeedLayout, formatter: string, component: string): Program
  {
    Program([NamedImport(l.clientImport, l.apiClient), NamedImport(l.formattersImport, formatter),
             ExportNamedDeclaration(Some(VariableDeclaration([VariableDeclarator(Identifier(component))])))])
  }

  /** old-utils.ts: exports oldUnusedFunction and anotherOldOne. */
  function OldUtilsTree(l: SeedLayout): Program
  {
    Program([ExportedFunction(l.oldUnusedFunction), ExportedFunction(l.anotherOldOne)])
  }

  // ---------------------------------------------------------------------
  // The snapshot
  // ---------------------------------------------------------------------

  /** The six paths are distinct, and no path is an earlier one's ".tsx" twin. */
  predicate DistinctPaths(l: SeedLayout)
  {
    && l.client != l.auth && l.client != l.formatters && l.client != l.userProfile && l.client != l.settings && l.client != l.oldUtils
    && l.auth != l.formatters && l.auth != l.userProfile && l.auth != l.settings && l.auth != l.oldUtils
    && l.formatters != l.userProfile && l.formatters != l.settings && l.formatters != l.oldUtils
    && l.userProfile != l.settings && l.userProfile != l.oldUtils && l.settings != l.oldUtils
    && l.client != l.auth + "x" && l.client != l.formatters + "x" && l.auth != l.formatters + "x"
  }

  /** The names are identifiers: non-empty, without ':', and the four imported names differ from each other and from the rest. */
  predicate DistinctNames(l: SeedLayout)
  {
    NamesNonEmpty(l) && NamesColonFree(l) && NamesDiffer(l)
  }

  predicate NamesNonEmpty(l: SeedLayout)
  {
    && l.getAuthToken != "" && l.setAuthToken != "" && l.apiClient != "" && l.formatDate != "" && l.formatCurrency != ""
    && l.userProfileName != "" && l.settingsName != "" && l.oldUnusedFunction != "" && l.anotherOldOne != ""
  }

  predicate NamesColonFree(l: SeedLayout)
  {
    && ':' !in l.getAuthToken && ':' !in l.setAuthToken && ':' !in l.apiClient && ':' !in l.formatDate
    && ':' !in l.formatCurrency && ':' !in l.userProfileName && ':' !in l.settingsName
    && ':' !in l.oldUnusedFunction && ':' !in l.anotherOldOne
  }

  predicate NamesDiffer(l: SeedLayout)
  {
    && Unlike(l.getAuthToken, l) && Unlike(l.apiClient, l) && Unlike(l.formatDate, l) && Unlike(l.formatCurrency, l)
    && l.getAuthToken != l.apiClient && l.getAuthToken != l.formatDate && l.getAuthToken != l.formatCurrency
    && l.apiClient != l.formatDate && l.apiClient != l.formatCurrency && l.formatDate != l.formatCurrency
  }

  /** `n` is none of the five names nobody imports. */
  predicate Unlike(n: string, l: SeedLayout)
  {
    && n != l.setAuthToken && n != l.userProfileName && n != l.settingsName
    && n != l.oldUnusedFunction && n != l.anotherOldOne
  }

  /** Each import specifier is non-empty and resolves from its importer to its target. */
  predicate Resolves(l: SeedLayout)
  {
    && l.authImport != "" && l.clientImport != "" && l.formattersImport != ""
    && ResolvedPath(l.client, l.authImport) == l.auth
    && ResolvedPath(l.auth, l.clientImport) == l.client
    && ResolvedPath(l.userProfile, l.clientImport) == l.client
    && ResolvedPath(l.userProfile, l.formattersImport) == l.formatters
    && ResolvedPath(l.settings, l.clientImport) == l.client
    && ResolvedPath(l.settings, l.formattersImport) == l.formatters
  }

  /** A layout like the seed's. */
  predicate WellPlaced(l: SeedLayout)
  {
    DistinctPaths(l) && DistinctNames(l) && Resolves(l)
  }

  /** The records hold the six paths, in order. */
  predicate SeedOrder(files: seq<CodeFile>, l: SeedLayout)
  {
    && |files| == 6
    && files[0].path == l.client && files[1].path == l.auth && files[2].path == l.formatters
    && files[3].path == l.userProfile && files[4].path == l.settings && files[5].path == l.oldUtils
  }

  /** The parser reads each record as its tree. */
  predicate SeedSnapshot(files: seq<CodeFile>, l: SeedLayout, parser: Parser)
  {
    && SeedOrder(files, l)
    && parser(files[0].content) == Some(ClientTree(l))
    && parser(files[1].content) == Some(AuthTree(l))
    && parser(files[2].content) == Some(FormattersTree(l))
    && parser(files[3].content) == Some(ComponentTree(l, l.formatDate, l.userProfileName))
    && parser(files[4].content) == Some(ComponentTree(l, l.formatCurrency, l.settingsName))
    && parser(files[5].content) == Some(OldUtilsTree(l))
  }

  // ---------------------------------------------------------------------
  // What the run reports
  // ---------------------------------------------------------------------

  /** The import edges, in snapshot and statement order. */
  function SeedDependencies(l: SeedLayout): seq<Dependency>
  {
    [Dependency(l.client, l.auth), Dependency(l.auth, l.client),
     Dependency(l.userProfile, l.client), Dependency(l.userProfile, l.formatters),
     Dependency(l.settings, l.client), Dependency(l.settings, l.formatters)]
  }

  /** The usage counts: getAuthToken once, ApiClient three times, each formatter once. */
  function SeedUsageTable(l: SeedLayout): map<string, int>
  {
    map[Key(l.auth, l.getAuthToken) := 1, Key(l.client, l.apiClient) := 3,
        Key(l.formatters, l.formatDate) := 1, Key(l.formatters, l.formatCurrency) := 1]
  }

  /** setAuthToken, both components and both legacy functions are never imported. */
  function SeedDeadSymbols(l: SeedLayout): seq<DeadSymbol>
  {
    [DeadSymbol(l.auth, l.setAuthToken), DeadSymbol(l.userProfile, l.userProfileName), DeadSymbol(l.settings, l.settingsName),
     DeadSymbol(l.oldUtils, l.oldUnusedFunction), DeadSymbol(l.oldUtils, l.anotherOldOne)]
  }

  /**
   * One run on the seed layout: six edges, the one client/auth cycle, three
   * uses of ApiClient, five dead exports and three dead files.
   */
  lemma SeedRun(files: seq<CodeFile>, l: SeedLayout, parser: Parser)
    requires SeedSnapshot(files, l, parser) && WellPlaced(l)
    ensures var r := Analyze(files, parser);
      && r.dependencies == SeedDependencies(l)
      && r.circularDependencyFiles == [[l.client, l.auth]]
      && r.circularDependencies == FileNames([[l.client, l.auth]])
      && UsagesAfter(files, parser) == SeedUsageTable(l)
      && r.symbolOrder == [l.client, l.auth, l.formatters, l.userProfile, l.settings, l.oldUtils]
      && r.deadCodeSymbols == SeedDeadSymbols(l)
      && r.deadCodeFiles == [l.userProfile, l.settings, l.oldUtils]
  {
    var asts := Asts(files, parser);
    SeedTrees(files, l, parser);
    var symbols := SymbolsAfter(files, parser);
    SeedSymbols(files, l, asts);
    SeedKeyOrder(files, l, asts);
    var deps := DepsAfter(files, parser);
    SeedEdges(files, l, parser);
    SeedImports(files, l, parser);
    SeedUsages(files, l, symbols);
    var dead := DeadSymbols([l.client, l.auth, l.formatters, l.userProfile, l.settings, l.oldUtils], symbols, SeedUsageTable(l));
    SeedDead(l, symbols);
    SeedDeadFiles(files, l, symbols);
    SeedGraph(files, l);
    SeedPathList(files, l);
    SeedSearch(BuildGraph(files, deps), l);
  }

  // ---------------------------------------------------------------------
  // The passes, one at a time
  // ---------------------------------------------------------------------

  /** Every path has its file's tree. */
  predicate HasTrees(asts: map<string, Program>, l: SeedLayout)
  {
    && l.client in asts && asts[l.client] == ClientTree(l)
    && l.auth in asts && asts[l.auth] == AuthTree(l)
    && l.formatters in asts && asts[l.formatters] == FormattersTree(l)
    && l.userProfile in asts && asts[l.userProfile] == ComponentTree(l, l.formatDate, l.userProfileName)
    && l.settings in asts && asts[l.settings] == ComponentTree(l, l.formatCurrency, l.settingsName)
    && l.oldUtils in asts && asts[l.oldUtils] == OldUtilsTree(l)
  }

  lemma SeedTrees(files: seq<CodeFile>, l: SeedLayout, parser: Parser)
    requires SeedSnapshot(files, l, parser) && DistinctPaths(l)
    ensures HasTrees(Asts(files, parser), l)
  {
    AstOfLast(files, parser, 0);
    AstOfLast(files, parser, 1);
    AstOfLast(files, parser, 2);
    AstOfLast(files, parser, 3);
    AstOfLast(files, parser, 4);
    AstOfLast(files, parser, 5);
  }

  /** Every path has the symbols its tree exports. */
  predicate HasSymbols(symbols: map<string, seq<CodeSymbol>>, l: SeedLayout)
  {
    && Lookup(symbols, l.client) == [CodeSymbol(l.apiClient, Class, true)]
    && Lookup(symbols, l.auth) == [CodeSymbol(l.getAuthToken, Function, true), CodeSymbol(l.setAuthToken, Function, true)]
    && Lookup(symbols, l.formatters) == [CodeSymbol(l.formatDate, Function, true), CodeSymbol(l.formatCurrency, Function, true)]
    && Lookup(symbols, l.userProfile) == [CodeSymbol(l.userProfileName, Variable, true)]
    && Lookup(symbols, l.settings) == [CodeSymbol(l.settingsName, Variable, true)]
    && Lookup(symbols, l.oldUtils) == [CodeSymbol(l.oldUnusedFunction, Function, true), CodeSymbol(l.anotherOldOne, Function, true)]
  }

  lemma SeedSymbols(files: seq<CodeFile>, l: SeedLayout, asts: map<string, Program>)
    requires SeedOrder(files, l) && NamesNonEmpty(l) && HasTrees(asts, l)
    ensures HasSymbols(SymbolsFrom(map[], asts, files), l)
  {
    TreeSymbols(l);
    assert HasPath(files, l.client) && HasPath(files, l.auth) && HasPath(files, l.formatters) by {
      assert files[0].path == l.client && files[1].path == l.auth && files[2].path == l.formatters;
    }
    assert HasPath(files, l.userProfile) && HasPath(files, l.settings) && HasPath(files, l.oldUtils) by {
      assert files[3].path == l.userProfile && files[4].path == l.settings && files[5].path == l.oldUtils;
    }
    SymbolsFromLookup(map[], asts, files, l.client);
    SymbolsFromLookup(map[], asts, files, l.auth);
    SymbolsFromLookup(map[], asts, files, l.formatters);
    SymbolsFromLookup(map[], asts, files, l.userProfile);
    SymbolsFromLookup(map[], asts, files, l.settings);
    SymbolsFromLookup(map[], asts, files, l.oldUtils);
  }

  lemma TreeSymbols(l: SeedLayout)
    requires NamesNonEmpty(l)
    ensures SymbolsOf(ClientTree(l).body) == [CodeSymbol(l.apiClient, Class, true)]
    ensures SymbolsOf(AuthTree(l).body) == [CodeSymbol(l.getAuthToken, Function, true), CodeSymbol(l.setAuthToken, Function, true)]
    ensures SymbolsOf(FormattersTree(l).body) == [CodeSymbol(l.formatDate, Function, true), CodeSymbol(l.formatCurrency, Function, true)]
    ensures SymbolsOf(ComponentTree(l, l.formatDate, l.userProfileName).body) == [CodeSymbol(l.userProfileName, Variable, true)]
    ensures SymbolsOf(ComponentTree(l, l.formatCurrency, l.settingsName).body) == [CodeSymbol(l.settingsName, Variable, true)]
    ensures SymbolsOf(OldUtilsTree(l).body) == [CodeSymbol(l.oldUnusedFunction, Function, true), CodeSymbol(l.anotherOldOne, Function, true)]
  {
    ClientSymbols(l);
    AuthSymbols(l);
    FunctionPairSymbols(l.formatDate, l.formatCurrency);
    ComponentSymbols(l, l.formatDate, l.userProfileName);
    ComponentSymbols(l, l.formatCurrency, l.settingsName);
    FunctionPairSymbols(l.oldUnusedFunction, l.anotherOldOne);
  }

  lemma ClientSymbols(l: SeedLayout)
    requires l.apiClient != ""
    ensures SymbolsOf(ClientTree(l).body) == [CodeSymbol(l.apiClient, Class, true)]
  {
  }

  lemma AuthSymbols(l: SeedLayout)
    requires l.getAuthToken != "" && l.setAuthToken != ""
    ensures SymbolsOf(AuthTree(l).body) == [CodeSymbol(l.getAuthToken, Function, true), CodeSymbol(l.setAuthToken, Function, true)]
  {
    var b := AuthTree(l).body;
    FunctionPairSymbols(l.getAuthToken, l.setAuthToken);
    assert b[2..] == [ExportedFunction(l.getAuthToken), ExportedFunction(l.setAuthToken)];
    assert b[1..][1..] == b[2..];
  }

  lemma FunctionPairSymbols(x: string, y: string)
    requires x != "" && y != ""
    ensures SymbolsOf([ExportedFunction(x), ExportedFunction(y)]) == [CodeSymbol(x, Function, true), CodeSymbol(y, Function, true)]
  {
    var b := [ExportedFunction(x), ExportedFunction(y)];
    assert b[1..][1..] == [];
  }

  lemma ComponentSymbols(l: SeedLayout, formatter: string, component: string)
    requires component != ""
    ensures SymbolsOf(ComponentTree(l, formatter, component).body) == [CodeSymbol(component, Variable, true)]
  {
    var b := ComponentTree(l, formatter, component).body;
    assert SymbolsOf(b[2..]) == [CodeSymbol(component, Variable, true)] by {
      assert b[2..][1..] == [];
    }
    assert b[1..][1..] == b[2..];
  }

  /** The symbol table lists the six paths in snapshot order. */
  lemma SeedKeyOrder(files: seq<CodeFile>, l: SeedLayout, asts: map<string, Program>)
    requires SeedOrder(files, l) && DistinctPaths(l) && HasTrees(asts, l)
    ensures OrderFrom([], asts, files) == [l.client, l.auth, l.formatters, l.userProfile, l.settings, l.oldUtils]
  {
    SeedPathsDistinct(files, l);
    assert forall i :: 0 <= i < |files| ==> files[i].path in asts;
    OrderOfDistinct([], asts, files);
    SeedPathList(files, l);
  }

  /** The seed's records have pairwise distinct paths. */
  lemma SeedPathsDistinct(files: seq<CodeFile>, l: SeedLayout)
    requires SeedOrder(files, l) && DistinctPaths(l)
    ensures forall i, j :: 0 <= i < j < |files| ==> files[i].path != files[j].path
  {
  }

  /** With distinct paths that all have trees, the symbol table's keys come in snapshot order. */
  lemma {:induction false} OrderOfDistinct(acc: seq<string>, asts: map<string, Program>, files: seq<CodeFile>)
    requires forall i :: 0 <= i < |files| ==> files[i].path in asts && files[i].path !in acc
    requires forall i, j :: 0 <= i < j < |files| ==> files[i].path != files[j].path
    ensures OrderFrom(acc, asts, files) == acc + Paths(files)
    decreases |files|
  {
    if files == [] {
      assert Paths(files) == [];
    } else {
      var rest := files[1..];
      forall i | 0 <= i < |rest| ensures rest[i].path in asts && rest[i].path !in acc + [files[0].path] {
        assert rest[i] == files[i + 1];
      }
      forall i, j | 0 <= i < j < |rest| ensures rest[i].path != rest[j].path {
        assert rest[i] == files[i + 1] && rest[j] == files[j + 1];
      }
      OrderOfDistinct(acc + [files[0].path], asts, rest);
      assert Paths(files) == [files[0].path] + Paths(rest);
    }
  }

  /** An import whose specifier resolves to a snapshot path gives one edge, to that path. */
  lemma ImportEdge(files: seq<CodeFile>, p: string, source: string, name: string, target: string)
    requires source != "" && FindTarget(files, ResolvedPath(p, source)) == Some(target)
    ensures EdgesOf(files, p, NamedImport(source, name)) == [Dependency(p, target)]
  {
  }

  /** Statements that are not imports give no edges. */
  lemma {:induction false} NoImportsNoEdges(files: seq<CodeFile>, p: string, body: seq<Node>)
    requires forall i :: 0 <= i < |body| ==> !body[i].ImportDeclaration?
    ensures DependenciesOf(files, p, body) == []
    decreases |body|
  {
    if body != [] {
      assert forall i :: 0 <= i < |body[1..]| ==> body[1..][i] == body[i + 1];
      NoImportsNoEdges(files, p, body[1..]);
    }
  }

  lemma ClientEdges(files: seq<CodeFile>, l: SeedLayout)
    requires l.authImport != "" && FindTarget(files, ResolvedPath(l.client, l.authImport)) == Some(l.auth)
    ensures DependenciesOf(files, l.client, ClientTree(l).body) == [Dependency(l.client, l.auth)]
  {
    var b := ClientTree(l).body;
    ImportEdge(files, l.client, l.authImport, l.getAuthToken, l.auth);
    NoImportsNoEdges(files, l.client, b[1..]);
  }

  lemma AuthEdges(files: seq<CodeFile>, l: SeedLayout)
    requires l.clientImport != "" && FindTarget(files, ResolvedPath(l.auth, l.clientImport)) == Some(l.client)
    ensures DependenciesOf(files, l.auth, AuthTree(l).body) == [Dependency(l.auth, l.client)]
  {
    var b := AuthTree(l).body;
    ImportEdge(files, l.auth, l.clientImport, l.apiClient, l.client);
    NoImportsNoEdges(files, l.auth, b[1..]);
  }

  lemma ComponentEdges(files: seq<CodeFile>, l: SeedLayout, p: string, formatter: string, component: string)
    requires l.clientImport != "" && FindTarget(files, ResolvedPath(p, l.clientImport)) == Some(l.client)
    requires l.formattersImport != "" && FindTarget(files, ResolvedPath(p, l.formattersImport)) == Some(l.formatters)
    ensures DependenciesOf(files, p, ComponentTree(l, formatter, component).body)
            == [Dependency(p, l.client), Dependency(p, l.formatters)]
  {
    ImportEdge(files, p, l.clientImport, l.apiClient, l.client);
    ImportEdge(files, p, l.formattersImport, formatter, l.formatters);
    TwoImportsEdges(files, p, ComponentTree(l, formatter, component).body, [Dependency(p, l.client)], [Dependency(p, l.formatters)]);
  }

  /** A three-statement body whose last statement is no import has the first two statements' edges. */
  lemma TwoImportsEdges(files: seq<CodeFile>, p: string, b: seq<Node>, e0: seq<Dependency>, e1: seq<Dependency>)
    requires |b| == 3 && !b[2].ImportDeclaration?
    requires EdgesOf(files, p, b[0]) == e0 && EdgesOf(files, p, b[1]) == e1
    ensures DependenciesOf(files, p, b) == e0 + e1
  {
    var c := b[1..];
    assert c[0] == b[1];
    NoImportsNoEdges(files, p, c[1..]);
    assert DependenciesOf(files, p, c) == e1 + [];
    assert e1 + [] == e1;
  }

  /** Pass 1 with an accumulator is the accumulator followed by pass 1 from nothing. */
  lemma {:induction false} DepsFromAcc(acc: seq<Dependency>, all: seq<CodeFile>, asts: map<string, Program>, files: seq<CodeFile>)
    ensures DepsFrom(acc, all, asts, files) == acc + DepsFrom([], all, asts, files)
    decreases |files|
  {
    if files != [] {
      var p := files[0].path;
      if p in asts {
        var e := DependenciesOf(all, p, asts[p].body);
        DepsFromAcc(acc + e, all, asts, files[1..]);
        DepsFromAcc([] + e, all, asts, files[1..]);
        assert [] + e == e;
      } else {
        DepsFromAcc(acc, all, asts, files[1..]);
        DepsFromAcc([], all, asts, files[1..]);
      }
    }
  }

  /** Pass 1 takes the first file's edges, then the rest's. */
  lemma DepsFromStep(all: seq<CodeFile>, asts: map<string, Program>, files: seq<CodeFile>, k: nat)
    requires k < |files| && files[k].path in asts
    ensures DepsFrom([], all, asts, files[k..])
            == DependenciesOf(all, files[k].path, asts[files[k].path].body) + DepsFrom([], all, asts, files[k + 1..])
  {
    assert files[k..][1..] == files[k + 1..];
    DepsFromAcc([] + DependenciesOf(all, files[k].path, asts[files[k].path].body), all, asts, files[k + 1..]);
  }

  lemma ImportsStep(asts: map<string, Program>, files: seq<CodeFile>, k: nat)
    requires k < |files| && files[k].path in asts
    ensures AllImports(asts, files[k..]) == ImportedNames(asts[files[k].path].body) + AllImports(asts, files[k + 1..])
  {
    assert files[k..][1..] == files[k + 1..];
  }

  lemma {:induction false} NoImportsNoNames(body: seq<Node>)
    requires forall i :: 0 <= i < |body| ==> !body[i].ImportDeclaration?
    ensures ImportedNames(body) == []
    decreases |body|
  {
    if body != [] {
      assert forall i :: 0 <= i < |body[1..]| ==> body[1..][i] == body[i + 1];
      NoImportsNoNames(body[1..]);
    }
  }

  lemma ComponentImports(l: SeedLayout, formatter: string, component: string)
    ensures ImportedNames(ComponentTree(l, formatter, component).body) == [l.apiClient, formatter]
  {
    var b := ComponentTree(l, formatter, component).body;
    OneSpecifier(l.apiClient);
    OneSpecifier(formatter);
    NoImportsNoNames(b[2..]);
    assert b[1..][1..] == b[2..];
  }

  lemma ClientImports(l: SeedLayout)
    ensures ImportedNames(ClientTree(l).body) == [l.getAuthToken]
  {
    var c := ClientTree(l).body;
    OneSpecifier(l.getAuthToken);
    NoImportsNoNames(c[1..]);
  }

  lemma OneSpecifier(name: string)
    ensures SpecifierNames([ImportSpecifier(name, name)]) == [name]
  {
    assert [ImportSpecifier(name, name)][1..] == [];
  }

  lemma AuthImports(l: SeedLayout)
    ensures ImportedNames(AuthTree(l).body) == [l.apiClient]
  {
    OneSpecifier(l.apiClient);
    NoImportsNoNames(AuthTree(l).body[1..]);
  }

  /** Record `f` has a tree, whose statements give the edges `e`. */
  predicate FileEdges(all: seq<CodeFile>, asts: map<string, Program>, f: CodeFile, e: seq<Dependency>)
  {
    f.path in asts && DependenciesOf(all, f.path, asts[f.path].body) == e
  }

  /** Record `f` has a tree, whose statements import the names `n`. */
  predicate FileImports(asts: map<string, Program>, f: CodeFile, n: seq<string>)
  {
    f.path in asts && ImportedNames(asts[f.path].body) == n
  }

  /** The record at `i` is analysed with its own tree when no later record has its path. */
  lemma TreeOfLast(files: seq<CodeFile>, parser: Parser, i: nat, t: Program)
    requires i < |files| && parser(files[i].content) == Some(t)
    requires forall j :: i < j < |files| ==> files[j].path != files[i].path
    ensures files[i].path in Asts(files, parser) && Asts(files, parser)[files[i].path] == t
  {
    AstOfLast(files, parser, i);
    assert HasPath(files, files[i].path);
    AstsCoverFiles(files, parser, files[i].path);
  }

  /** Pass 1 over six records with trees is their edges, one record after another. */
  lemma DepsOfSix(all: seq<CodeFile>, asts: map<string, Program>, files: seq<CodeFile>,
                  e0: seq<Dependency>, e1: seq<Dependency>, e2: seq<Dependency>, e3: seq<Dependency>, e4: seq<Dependency>, e5: seq<Dependency>)
    requires |files| == 6
    requires FileEdges(all, asts, files[0], e0) && FileEdges(all, asts, files[1], e1) && FileEdges(all, asts, files[2], e2)
    requires FileEdges(all, asts, files[3], e3) && FileEdges(all, asts, files[4], e4) && FileEdges(all, asts, files[5], e5)
    ensures DepsFrom([], all, asts, files) == e0 + (e1 + (e2 + (e3 + (e4 + e5))))
  {
    DepsFromStep(all, asts, files, 0);
    DepsFromStep(all, asts, files, 1);
    DepsFromStep(all, asts, files, 2);
    DepsFromStep(all, asts, files, 3);
    DepsFromStep(all, asts, files, 4);
    DepsFromStep(all, asts, files, 5);
    assert files[0..] == files && files[6..] == [];
    assert e5 + [] == e5;
  }

  /** The names imported by six records with trees, one record after another. */
  lemma ImportsOfSix(asts: map<string, Program>, files: seq<CodeFile>,
                     n0: seq<string>, n1: seq<string>, n2: seq<string>, n3: seq<string>, n4: seq<string>, n5: seq<string>)
    requires |files| == 6
    requires FileImports(asts, files[0], n0) && FileImports(asts, files[1], n1) && FileImports(asts, files[2], n2)
    requires FileImports(asts, files[3], n3) && FileImports(asts, files[4], n4) && FileImports(asts, files[5], n5)
    ensures AllImports(asts, files) == n0 + (n1 + (n2 + (n3 + (n4 + n5))))
  {
    ImportsStep(asts, files, 0);
    ImportsStep(asts, files, 1);
    ImportsStep(asts, files, 2);
    ImportsStep(asts, files, 3);
    ImportsStep(asts, files, 4);
    ImportsStep(asts, files, 5);
    assert files[0..] == files && files[6..] == [];
    assert n5 + [] == n5;
  }

  /** client.ts: one edge, to auth.ts, and the name getAuthToken. */
  lemma ClientFile(files: seq<CodeFile>, l: SeedLayout, parser: Parser)
    requires SeedOrder(files, l) && DistinctPaths(l) && parser(files[0].content) == Some(ClientTree(l))
    requires l.authImport != "" && ResolvedPath(l.client, l.authImport) == l.auth
    ensures FileEdges(files, Asts(files, parser), files[0], [Dependency(l.client, l.auth)])
    ensures FileImports(Asts(files, parser), files[0], [l.getAuthToken])
  {
    TreeOfLast(files, parser, 0, ClientTree(l));
    FindTargetAt(files, l.auth, 1);
    ClientEdges(files, l);
    ClientImports(l);
  }

  /** auth.ts: one edge, back to client.ts, and the name ApiClient. */
  lemma AuthFile(files: seq<CodeFile>, l: SeedLayout, parser: Parser)
    requires SeedOrder(files, l) && DistinctPaths(l) && parser(files[1].content) == Some(AuthTree(l))
    requires l.clientImport != "" && ResolvedPath(l.auth, l.clientImport) == l.client
    ensures FileEdges(files, Asts(files, parser), files[1], [Dependency(l.auth, l.client)])
    ensures FileImports(Asts(files, parser), files[1], [l.apiClient])
  {
    TreeOfLast(files, parser, 1, AuthTree(l));
    FindTargetAt(files, l.client, 0);
    AuthEdges(files, l);
    AuthImports(l);
  }

  /** A component: edges to client.ts and the formatters, and the names ApiClient and its formatter. */
  lemma ComponentFile(files: seq<CodeFile>, l: SeedLayout, parser: Parser, i: nat, formatter: string, component: string)
    requires SeedOrder(files, l) && DistinctPaths(l) && (i == 3 || i == 4)
    requires parser(files[i].content) == Some(ComponentTree(l, formatter, component))
    requires l.clientImport != "" && ResolvedPath(files[i].path, l.clientImport) == l.client
    requires l.formattersImport != "" && ResolvedPath(files[i].path, l.formattersImport) == l.formatters
    ensures FileEdges(files, Asts(files, parser), files[i], [Dependency(files[i].path, l.client), Dependency(files[i].path, l.formatters)])
    ensures FileImports(Asts(files, parser), files[i], [l.apiClient, formatter])
  {
    TreeOfLast(files, parser, i, ComponentTree(l, formatter, component));
    FindTargetAt(files, l.client, 0);
    FindTargetAt(files, l.formatters, 2);
    ComponentEdges(files, l, files[i].path, formatter, component);
    ComponentImports(l, formatter, component);
  }

  /** formatters.ts: no imports, so no edges and no names. */
  lemma FormattersFile(files: seq<CodeFile>, l: SeedLayout, parser: Parser)
    requires SeedOrder(files, l) && DistinctPaths(l) && parser(files[2].content) == Some(FormattersTree(l))
    ensures FileEdges(files, Asts(files, parser), files[2], [])
    ensures FileImports(Asts(files, parser), files[2], [])
  {
    TreeOfLast(files, parser, 2, FormattersTree(l));
    NoImportsNoEdges(files, l.formatters, FormattersTree(l).body);
    NoImportsNoNames(FormattersTree(l).body);
  }

  /** old-utils.ts: no imports either. */
  lemma OldUtilsFile(files: seq<CodeFile>, l: SeedLayout, parser: Parser)
    requires SeedOrder(files, l) && DistinctPaths(l) && parser(files[5].content) == Some(OldUtilsTree(l))
    ensures FileEdges(files, Asts(files, parser), files[5], [])
    ensures FileImports(Asts(files, parser), files[5], [])
  {
    TreeOfLast(files, parser, 5, OldUtilsTree(l));
    NoImportsNoEdges(files, l.oldUtils, OldUtilsTree(l).body);
    NoImportsNoNames(OldUtilsTree(l).body);
  }

  /** The per-record lists of the seed, one, one, none, two, two and none long, joined. */
  lemma JoinSeedShape<T>(a: T, b: T, c: T, d: T, e: T, f: T)
    ensures [a] + ([b] + ([] + ([c, d] + ([e, f] + [])))) == [a, b, c, d, e, f]
  {
  }

  /** Pass 1 finds the six edges. */
  lemma SeedEdges(files: seq<CodeFile>, l: SeedLayout, parser: Parser)
    requires SeedSnapshot(files, l, parser) && DistinctPaths(l) && Resolves(l)
    ensures DepsAfter(files, parser) == SeedDependencies(l)
  {
    var asts := Asts(files, parser);
    ClientFile(files, l, parser);
    AuthFile(files, l, parser);
    FormattersFile(files, l, parser);
    ComponentFile(files, l, parser, 3, l.formatDate, l.userProfileName);
    ComponentFile(files, l, parser, 4, l.formatCurrency, l.settingsName);
    OldUtilsFile(files, l, parser);
    DepsOfSix(files, asts, files, [Dependency(l.client, l.auth)], [Dependency(l.auth, l.client)], [],
              [Dependency(l.userProfile, l.client), Dependency(l.userProfile, l.formatters)],
              [Dependency(l.settings, l.client), Dependency(l.settings, l.formatters)], []);
    JoinSeedShape(Dependency(l.client, l.auth), Dependency(l.auth, l.client),
                  Dependency(l.userProfile, l.client), Dependency(l.userProfile, l.formatters),
                  Dependency(l.settings, l.client), Dependency(l.settings, l.formatters));
  }

  /** The imports name getAuthToken, ApiClient three times and each formatter. */
  lemma SeedImports(files: seq<CodeFile>, l: SeedLayout, parser: Parser)
    requires SeedSnapshot(files, l, parser) && DistinctPaths(l) && Resolves(l)
    ensures AllImports(Asts(files, parser), files) == [l.getAuthToken, l.apiClient, l.apiClient, l.formatDate, l.apiClient, l.formatCurrency]
  {
    var asts := Asts(files, parser);
    ClientFile(files, l, parser);
    AuthFile(files, l, parser);
    FormattersFile(files, l, parser);
    ComponentFile(files, l, parser, 3, l.formatDate, l.userProfileName);
    ComponentFile(files, l, parser, 4, l.formatCurrency, l.settingsName);
    OldUtilsFile(files, l, parser);
    ImportsOfSix(asts, files, [l.getAuthToken], [l.apiClient], [], [l.apiClient, l.formatDate], [l.apiClient, l.formatCurrency], []);
    JoinSeedShape(l.getAuthToken, l.apiClient, l.apiClient, l.formatDate, l.apiClient, l.formatCurrency);
  }

  /** A name is charged to the record at `i` when that record exports it and no earlier one does. */
  lemma UsageKeyAt(files: seq<CodeFile>, symbols: map<string, seq<CodeSymbol>>, name: string, i: nat)
    requires i < |files| && Exports(Lookup(symbols, files[i].path), name)
    requires forall j :: 0 <= j < i ==> !Exports(Lookup(symbols, files[j].path), name)
    ensures UsageKey(files, symbols, name) == Some(Key(files[i].path, name))
  {
    var e := FirstExporter(files, symbols, name);
    var k :| 0 <= k < |files| && files[k].path == e.value && Exports(Lookup(symbols, e.value), name)
             && forall j :: 0 <= j < k ==> !Exports(Lookup(symbols, files[j].path), name);
    assert k == i;
  }

  /** A one- or two-symbol list exports exactly the names listed. */
  lemma ExportsPair(syms: seq<CodeSymbol>, x: CodeSymbol, y: CodeSymbol, name: string)
    requires syms == [x, y] && x.exported && y.exported
    ensures Exports(syms, name) <==> name == x.name || name == y.name
  {
    if name == x.name { assert syms[0].name == name; }
    if name == y.name { assert syms[1].name == name; }
  }

  lemma ExportsOne(syms: seq<CodeSymbol>, x: CodeSymbol, name: string)
    requires syms == [x] && x.exported
    ensures Exports(syms, name) <==> name == x.name
  {
    if name == x.name { assert syms[0].name == name; }
  }

  lemma ApiClientKey(files: seq<CodeFile>, l: SeedLayout, symbols: map<string, seq<CodeSymbol>>)
    requires SeedOrder(files, l) && Lookup(symbols, l.client) == [CodeSymbol(l.apiClient, Class, true)]
    ensures UsageKey(files, symbols, l.apiClient) == Some(Key(l.client, l.apiClient))
  {
    ExportsOne(Lookup(symbols, l.client), CodeSymbol(l.apiClient, Class, true), l.apiClient);
    UsageKeyAt(files, symbols, l.apiClient, 0);
  }

  lemma GetAuthTokenKey(files: seq<CodeFile>, l: SeedLayout, symbols: map<string, seq<CodeSymbol>>)
    requires SeedOrder(files, l) && l.getAuthToken != l.apiClient
    requires Lookup(symbols, l.client) == [CodeSymbol(l.apiClient, Class, true)]
    requires Lookup(symbols, l.auth) == [CodeSymbol(l.getAuthToken, Function, true), CodeSymbol(l.setAuthToken, Function, true)]
    ensures UsageKey(files, symbols, l.getAuthToken) == Some(Key(l.auth, l.getAuthToken))
  {
    ExportsOne(Lookup(symbols, l.client), CodeSymbol(l.apiClient, Class, true), l.getAuthToken);
    ExportsPair(Lookup(symbols, l.auth), CodeSymbol(l.getAuthToken, Function, true), CodeSymbol(l.setAuthToken, Function, true), l.getAuthToken);
    UsageKeyAt(files, symbols, l.getAuthToken, 1);
  }

  /** A formatter is exported by formatters.ts and by neither client.ts nor auth.ts. */
  lemma FormatterKey(files: seq<CodeFile>, l: SeedLayout, symbols: map<string, seq<CodeSymbol>>, name: string)
    requires SeedOrder(files, l) && (name == l.formatDate || name == l.formatCurrency)
    requires name != l.apiClient && name != l.getAuthToken && name != l.setAuthToken
    requires Lookup(symbols, l.client) == [CodeSymbol(l.apiClient, Class, true)]
    requires Lookup(symbols, l.auth) == [CodeSymbol(l.getAuthToken, Function, true), CodeSymbol(l.setAuthToken, Function, true)]
    requires Lookup(symbols, l.formatters) == [CodeSymbol(l.formatDate, Function, true), CodeSymbol(l.formatCurrency, Function, true)]
    ensures UsageKey(files, symbols, name) == Some(Key(l.formatters, name))
  {
    ExportsOne(Lookup(symbols, l.client), CodeSymbol(l.apiClient, Class, true), name);
    ExportsPair(Lookup(symbols, l.auth), CodeSymbol(l.getAuthToken, Function, true), CodeSymbol(l.setAuthToken, Function, true), name);
    ExportsPair(Lookup(symbols, l.formatters), CodeSymbol(l.formatDate, Function, true), CodeSymbol(l.formatCurrency, Function, true), name);
    UsageKeyAt(files, symbols, name, 2);
  }

  /** Pass 2 charges one name to its key, then goes on with the rest. */
  lemma CountStep(m: map<string, int>, files: seq<CodeFile>, symbols: map<string, seq<CodeSymbol>>, x: string, rest: seq<string>, k: string)
    requires UsageKey(files, symbols, x) == Some(k)
    ensures CountNames(m, files, symbols, [x] + rest) == CountNames(m[k := Count(m, k) + 1], files, symbols, rest)
  {
    assert ([x] + rest)[0] == x && ([x] + rest)[1..] == rest;
  }

  /**
   * Six names charged to four distinct keys in the seed's pattern (the
   * second key three times) count one, three, one and one.
   */
  lemma CountSeedShape(files: seq<CodeFile>, symbols: map<string, seq<CodeSymbol>>, g: string, a: string, fd: string, fc: string,
                       k1: string, k2: string, k3: string, k4: string)
    requires UsageKey(files, symbols, g) == Some(k1) && UsageKey(files, symbols, a) == Some(k2)
    requires UsageKey(files, symbols, fd) == Some(k3) && UsageKey(files, symbols, fc) == Some(k4)
    requires k1 != k2 && k1 != k3 && k1 != k4 && k2 != k3 && k2 != k4 && k3 != k4
    ensures CountNames(map[], files, symbols, [g, a, a, fd, a, fc]) == map[k1 := 1, k2 := 3, k3 := 1, k4 := 1]
  {
    CountFirstThree(files, symbols, g, a, fd, fc, k1, k2);
    CountLastThree(files, symbols, fd, a, fc, map[k1 := 1, k2 := 2], k2, k3, k4);
    SeedCounts(k1, k2, k3, k4);
  }

  lemma CountFirstThree(files: seq<CodeFile>, symbols: map<string, seq<CodeSymbol>>, g: string, a: string, fd: string, fc: string, k1: string, k2: string)
    requires UsageKey(files, symbols, g) == Some(k1) && UsageKey(files, symbols, a) == Some(k2) && k1 != k2
    ensures CountNames(map[], files, symbols, [g, a, a, fd, a, fc]) == CountNames(map[k1 := 1, k2 := 2], files, symbols, [fd, a, fc])
  {
    CountStep(map[], files, symbols, g, [a, a, fd, a, fc], k1);
    CountStep(map[k1 := 1], files, symbols, a, [a, fd, a, fc], k2);
    CountStep(map[k1 := 1, k2 := 1], files, symbols, a, [fd, a, fc], k2);
    assert [g] + [a, a, fd, a, fc] == [g, a, a, fd, a, fc];
    assert [a] + [a, fd, a, fc] == [a, a, fd, a, fc];
    assert [a] + [fd, a, fc] == [a, fd, a, fc];
    assert map[k1 := 1, k2 := 1][k2 := 2] == map[k1 := 1, k2 := 2];
  }

  lemma CountLastThree(files: seq<CodeFile>, symbols: map<string, seq<CodeSymbol>>, fd: string, a: string, fc: string,
                       m: map<string, int>, k2: string, k3: string, k4: string)
    requires UsageKey(files, symbols, fd) == Some(k3) && UsageKey(files, symbols, a) == Some(k2) && UsageKey(files, symbols, fc) == Some(k4)
    requires k3 !in m && k4 !in m && k2 in m && k2 != k3 && k2 != k4 && k3 != k4
    ensures CountNames(m, files, symbols, [fd, a, fc]) == m[k3 := 1][k2 := m[k2] + 1][k4 := 1]
  {
    var m1 := m[k3 := 1];
    var m2 := m1[k2 := m[k2] + 1];
    calc {
      CountNames(m, files, symbols, [fd, a, fc]);
      { CountStep(m, files, symbols, fd, [a, fc], k3); assert [fd] + [a, fc] == [fd, a, fc]; assert Count(m, k3) == 0; }
      CountNames(m1, files, symbols, [a, fc]);
      { CountStep(m1, files, symbols, a, [fc], k2); assert [a] + [fc] == [a, fc]; assert Count(m1, k2) == m[k2]; }
      CountNames(m2, files, symbols, [fc]);
      { CountOne(m2, files, symbols, fc, k4); assert Count(m2, k4) == 0; }
      m2[k4 := 1];
    }
  }

  /** Pass 2 over a single name charges its key. */
  lemma CountOne(m: map<string, int>, files: seq<CodeFile>, symbols: map<string, seq<CodeSymbol>>, x: string, k: string)
    requires UsageKey(files, symbols, x) == Some(k)
    ensures CountNames(m, files, symbols, [x]) == m[k := Count(m, k) + 1]
  {
    assert [x][1..] == [];
  }

  lemma SeedCounts(k1: string, k2: string, k3: string, k4: string)
    requires k1 != k2 && k1 != k3 && k1 != k4 && k2 != k3 && k2 != k4 && k3 != k4
    ensures map[k1 := 1, k2 := 2][k3 := 1][k2 := 3][k4 := 1] == map[k1 := 1, k2 := 3, k3 := 1, k4 := 1]
  {
  }

  /** With names free of ':', usage keys of different symbols differ. */
  lemma KeysDiffer(p1: string, n1: string, p2: string, n2: string)
    requires ':' !in n1 && ':' !in n2 && (p1 != p2 || n1 != n2)
    ensures Key(p1, n1) != Key(p2, n2)
  {
    if Key(p1, n1) == Key(p2, n2) {
      KeyInjective(p1, n1, p2, n2);
    }
  }

  /** Pass 2 over the imported names yields the seed's usage table. */
  lemma SeedUsages(files: seq<CodeFile>, l: SeedLayout, symbols: map<string, seq<CodeSymbol>>)
    requires SeedOrder(files, l) && DistinctPaths(l) && DistinctNames(l) && HasSymbols(symbols, l)
    ensures CountNames(map[], files, symbols, [l.getAuthToken, l.apiClient, l.apiClient, l.formatDate, l.apiClient, l.formatCurrency])
            == SeedUsageTable(l)
  {
    ApiClientKey(files, l, symbols);
    GetAuthTokenKey(files, l, symbols);
    FormatterKey(files, l, symbols, l.formatDate);
    FormatterKey(files, l, symbols, l.formatCurrency);
    KeysDiffer(l.auth, l.getAuthToken, l.client, l.apiClient);
    KeysDiffer(l.auth, l.getAuthToken, l.formatters, l.formatDate);
    KeysDiffer(l.auth, l.getAuthToken, l.formatters, l.formatCurrency);
    KeysDiffer(l.client, l.apiClient, l.formatters, l.formatDate);
    KeysDiffer(l.client, l.apiClient, l.formatters, l.formatCurrency);
    KeysDiffer(l.formatters, l.formatDate, l.formatters, l.formatCurrency);
    CountSeedShape(files, symbols, l.getAuthToken, l.apiClient, l.formatDate, l.formatCurrency,
                   Key(l.auth, l.getAuthToken), Key(l.client, l.apiClient), Key(l.formatters, l.formatDate), Key(l.formatters, l.formatCurrency));
  }

  /** A key the table does not list. */
  lemma Uncharged(l: SeedLayout, p: string, n: string)
    requires DistinctNames(l) && ':' !in n
    requires n != l.getAuthToken && n != l.apiClient && n != l.formatDate && n != l.formatCurrency
    ensures Key(p, n) !in SeedUsageTable(l)
  {
    KeysDiffer(p, n, l.auth, l.getAuthToken);
    KeysDiffer(p, n, l.client, l.apiClient);
    KeysDiffer(p, n, l.formatters, l.formatDate);
    KeysDiffer(p, n, l.formatters, l.formatCurrency);
  }

  /** A file with one exported symbol lists it dead exactly when its key has no usage. */
  lemma DeadOfOne(p: string, x: CodeSymbol, usages: map<string, int>)
    requires x.exported
    ensures DeadSymbolsOf(p, [x], usages) == if Key(p, x.name) in usages then [] else [DeadSymbol(p, x.name)]
  {
    assert [x][1..] == [];
  }

  /** The same for a file with two exported symbols, in list order. */
  lemma DeadOfPair(p: string, x: CodeSymbol, y: CodeSymbol, usages: map<string, int>)
    requires x.exported && y.exported
    ensures DeadSymbolsOf(p, [x, y], usages)
            == (if Key(p, x.name) in usages then [] else [DeadSymbol(p, x.name)])
               + (if Key(p, y.name) in usages then [] else [DeadSymbol(p, y.name)])
  {
    assert [x, y][1..] == [y];
    DeadOfOne(p, y, usages);
  }

  /** The dead symbols of six table entries, one entry after another. */
  lemma DeadOfSix(order: seq<string>, symbols: map<string, seq<CodeSymbol>>, usages: map<string, int>,
                  d0: seq<DeadSymbol>, d1: seq<DeadSymbol>, d2: seq<DeadSymbol>, d3: seq<DeadSymbol>, d4: seq<DeadSymbol>, d5: seq<DeadSymbol>)
    requires |order| == 6
    requires DeadSymbolsOf(order[0], Lookup(symbols, order[0]), usages) == d0
    requires DeadSymbolsOf(order[1], Lookup(symbols, order[1]), usages) == d1
    requires DeadSymbolsOf(order[2], Lookup(symbols, order[2]), usages) == d2
    requires DeadSymbolsOf(order[3], Lookup(symbols, order[3]), usages) == d3
    requires DeadSymbolsOf(order[4], Lookup(symbols, order[4]), usages) == d4
    requires DeadSymbolsOf(order[5], Lookup(symbols, order[5]), usages) == d5
    ensures DeadSymbols(order, symbols, usages) == d0 + (d1 + (d2 + (d3 + (d4 + d5))))
  {
    DeadSymbolsStep(order, symbols, usages, 0);
    DeadSymbolsStep(order, symbols, usages, 1);
    DeadSymbolsStep(order, symbols, usages, 2);
    DeadSymbolsStep(order, symbols, usages, 3);
    DeadSymbolsStep(order, symbols, usages, 4);
    DeadSymbolsStep(order, symbols, usages, 5);
    assert order[0..] == order && order[6..] == [];
    assert d5 + [] == d5;
  }

  /** The per-file dead lists of the seed, none, one, none, one, one and two long, joined. */
  lemma JoinDeadShape<T>(a: T, b: T, c: T, d: T, e: T)
    ensures [] + ([a] + ([] + ([b] + ([c] + [d, e])))) == [a, b, c, d, e]
  {
  }

  /** Which keys a usage table holds decides the dead list of the seed's symbol table. */
  lemma DeadOfTable(l: SeedLayout, symbols: map<string, seq<CodeSymbol>>, t: map<string, int>)
    requires HasSymbols(symbols, l)
    requires Key(l.client, l.apiClient) in t && Key(l.auth, l.getAuthToken) in t
    requires Key(l.formatters, l.formatDate) in t && Key(l.formatters, l.formatCurrency) in t
    requires Key(l.auth, l.setAuthToken) !in t && Key(l.userProfile, l.userProfileName) !in t && Key(l.settings, l.settingsName) !in t
    requires Key(l.oldUtils, l.oldUnusedFunction) !in t && Key(l.oldUtils, l.anotherOldOne) !in t
    ensures DeadSymbols([l.client, l.auth, l.formatters, l.userProfile, l.settings, l.oldUtils], symbols, t) == SeedDeadSymbols(l)
  {
    DeadOfOne(l.client, CodeSymbol(l.apiClient, Class, true), t);
    DeadOfPair(l.auth, CodeSymbol(l.getAuthToken, Function, true), CodeSymbol(l.setAuthToken, Function, true), t);
    DeadOfPair(l.formatters, CodeSymbol(l.formatDate, Function, true), CodeSymbol(l.formatCurrency, Function, true), t);
    DeadOfOne(l.userProfile, CodeSymbol(l.userProfileName, Variable, true), t);
    DeadOfOne(l.settings, CodeSymbol(l.settingsName, Variable, true), t);
    DeadOfPair(l.oldUtils, CodeSymbol(l.oldUnusedFunction, Function, true), CodeSymbol(l.anotherOldOne, Function, true), t);
    DeadOfSix([l.client, l.auth, l.formatters, l.userProfile, l.settings, l.oldUtils], symbols, t,
              [], [DeadSymbol(l.auth, l.setAuthToken)], [], [DeadSymbol(l.userProfile, l.userProfileName)],
              [DeadSymbol(l.settings, l.settingsName)], [DeadSymbol(l.oldUtils, l.oldUnusedFunction), DeadSymbol(l.oldUtils, l.anotherOldOne)]);
    JoinDeadShape(DeadSymbol(l.auth, l.setAuthToken), DeadSymbol(l.userProfile, l.userProfileName), DeadSymbol(l.settings, l.settingsName),
                  DeadSymbol(l.oldUtils, l.oldUnusedFunction), DeadSymbol(l.oldUtils, l.anotherOldOne));
  }

  /** The keys the seed's table lists, and five it does not. */
  lemma SeedTableKeys(l: SeedLayout)
    requires DistinctNames(l)
    ensures Key(l.client, l.apiClient) in SeedUsageTable(l) && Key(l.auth, l.getAuthToken) in SeedUsageTable(l)
    ensures Key(l.formatters, l.formatDate) in SeedUsageTable(l) && Key(l.formatters, l.formatCurrency) in SeedUsageTable(l)
    ensures Key(l.auth, l.setAuthToken) !in SeedUsageTable(l) && Key(l.userProfile, l.userProfileName) !in SeedUsageTable(l)
    ensures Key(l.settings, l.settingsName) !in SeedUsageTable(l)
    ensures Key(l.oldUtils, l.oldUnusedFunction) !in SeedUsageTable(l) && Key(l.oldUtils, l.anotherOldOne) !in SeedUsageTable(l)
  {
    Uncharged(l, l.auth, l.setAuthToken);
    Uncharged(l, l.userProfile, l.userProfileName);
    Uncharged(l, l.settings, l.settingsName);
    Uncharged(l, l.oldUtils, l.oldUnusedFunction);
    Uncharged(l, l.oldUtils, l.anotherOldOne);
  }

  /** Pass 3 lists setAuthToken, both components and both legacy functions. */
  lemma SeedDead(l: SeedLayout, symbols: map<string, seq<CodeSymbol>>)
    requires DistinctNames(l) && HasSymbols(symbols, l)
    ensures DeadSymbols([l.client, l.auth, l.formatters, l.userProfile, l.settings, l.oldUtils], symbols, SeedUsageTable(l))
            == SeedDeadSymbols(l)
  {
    SeedTableKeys(l);
    DeadOfTable(l, symbols, SeedUsageTable(l));
  }

  /** Pass 4 over a suffix of the records: its first record, then the rest. */
  lemma DeadFilesStep(files: seq<CodeFile>, symbols: map<string, seq<CodeSymbol>>, dead: seq<DeadSymbol>, k: nat)
    requires k < |files|
    ensures DeadFiles(files[k..], symbols, dead)
            == (if IsDeadFile(symbols, files[k].path, dead) then [files[k].path] else []) + DeadFiles(files[k + 1..], symbols, dead)
  {
    assert files[k..][1..] == files[k + 1..];
  }

  /** Pass 4 skips three live records in front. */
  lemma LiveFilesFirst(files: seq<CodeFile>, symbols: map<string, seq<CodeSymbol>>, dead: seq<DeadSymbol>)
    requires |files| == 6
    requires !IsDeadFile(symbols, files[0].path, dead) && !IsDeadFile(symbols, files[1].path, dead)
    requires !IsDeadFile(symbols, files[2].path, dead)
    ensures DeadFiles(files, symbols, dead) == DeadFiles(files[3..], symbols, dead)
  {
    DeadFilesStep(files, symbols, dead, 0);
    DeadFilesStep(files, symbols, dead, 1);
    DeadFilesStep(files, symbols, dead, 2);
    assert files[0..] == files;
  }

  /** Pass 4 reports three dead records at the end. */
  lemma DeadFilesLast(files: seq<CodeFile>, symbols: map<string, seq<CodeSymbol>>, dead: seq<DeadSymbol>)
    requires |files| == 6
    requires IsDeadFile(symbols, files[3].path, dead) && IsDeadFile(symbols, files[4].path, dead)
    requires IsDeadFile(symbols, files[5].path, dead)
    ensures DeadFiles(files[3..], symbols, dead) == [files[3].path, files[4].path, files[5].path]
  {
    DeadFilesStep(files, symbols, dead, 3);
    DeadFilesStep(files, symbols, dead, 4);
    DeadFilesStep(files, symbols, dead, 5);
    assert files[6..] == [];
  }

  /** client.ts, auth.ts and the formatters each keep a live symbol; the rest are dead throughout. */
  lemma SeedDeadFileFlags(l: SeedLayout, symbols: map<string, seq<CodeSymbol>>)
    requires DistinctPaths(l) && NamesDiffer(l) && HasSymbols(symbols, l)
    ensures !IsDeadFile(symbols, l.client, SeedDeadSymbols(l)) && !IsDeadFile(symbols, l.auth, SeedDeadSymbols(l))
    ensures !IsDeadFile(symbols, l.formatters, SeedDeadSymbols(l))
    ensures IsDeadFile(symbols, l.userProfile, SeedDeadSymbols(l)) && IsDeadFile(symbols, l.settings, SeedDeadSymbols(l))
    ensures IsDeadFile(symbols, l.oldUtils, SeedDeadSymbols(l))
  {
    var dead := SeedDeadSymbols(l);
    assert !AllListedDead(l.client, Lookup(symbols, l.client), dead) by {
      assert Lookup(symbols, l.client)[0].name == l.apiClient && DeadSymbol(l.client, l.apiClient) !in dead;
    }
    assert !AllListedDead(l.auth, Lookup(symbols, l.auth), dead) by {
      assert Lookup(symbols, l.auth)[0].name == l.getAuthToken && DeadSymbol(l.auth, l.getAuthToken) !in dead;
    }
    assert !AllListedDead(l.formatters, Lookup(symbols, l.formatters), dead) by {
      assert Lookup(symbols, l.formatters)[0].name == l.formatDate && DeadSymbol(l.formatters, l.formatDate) !in dead;
    }
    assert dead[1] == DeadSymbol(l.userProfile, l.userProfileName);
    assert dead[2] == DeadSymbol(l.settings, l.settingsName);
    assert dead[3] == DeadSymbol(l.oldUtils, l.oldUnusedFunction) && dead[4] == DeadSymbol(l.oldUtils, l.anotherOldOne);
  }

  lemma SeedDeadFiles(files: seq<CodeFile>, l: SeedLayout, symbols: map<string, seq<CodeSymbol>>)
    requires SeedOrder(files, l) && DistinctPaths(l) && NamesDiffer(l) && HasSymbols(symbols, l)
    ensures DeadFiles(files, symbols, SeedDeadSymbols(l)) == [l.userProfile, l.settings, l.oldUtils]
  {
    SeedDeadFileFlags(l, symbols);
    LiveFilesFirst(files, symbols, SeedDeadSymbols(l));
    DeadFilesLast(files, symbols, SeedDeadSymbols(l));
  }

  // ---------------------------------------------------------------------
  // The cycle search
  // ---------------------------------------------------------------------

  /** The graph of the seed: client and auth point at each other, the components at client and formatters. */
  predicate SeedGraphShape(g: Graph, l: SeedLayout)
  {
    && l.client in g && l.auth in g && l.formatters in g && l.userProfile in g && l.settings in g && l.oldUtils in g
    && Neighbors(g, l.client) == [l.auth] && Neighbors(g, l.auth) == [l.client] && Neighbors(g, l.formatters) == []
    && Neighbors(g, l.userProfile) == [l.client, l.formatters] && Neighbors(g, l.settings) == [l.client, l.formatters]
    && Neighbors(g, l.oldUtils) == []
  }

  /** The one target a single edge gives `n`: its own, when it leaves `n`. */
  function TargetOf(d: Dependency, n: string): seq<string>
  {
    if d.from == n then [d.to] else []
  }

  /** The targets of six edges, one edge after another. */
  lemma TargetsOfSix(d: seq<Dependency>, n: string)
    requires |d| == 6
    ensures Targets(d, n) == TargetOf(d[0], n) + (TargetOf(d[1], n) + (TargetOf(d[2], n) + (TargetOf(d[3], n) + (TargetOf(d[4], n) + TargetOf(d[5], n)))))
  {
    TargetsStep(d, n, 0);
    TargetsStep(d, n, 1);
    TargetsStep(d, n, 2);
    TargetsStep(d, n, 3);
    TargetsStep(d, n, 4);
    TargetsStep(d, n, 5);
    assert d[0..] == d && d[6..] == [];
    assert TargetOf(d[5], n) + [] == TargetOf(d[5], n);
  }

  lemma TargetsStep(d: seq<Dependency>, n: string, k: nat)
    requires k < |d|
    ensures Targets(d[k..], n) == TargetOf(d[k], n) + Targets(d[k + 1..], n)
  {
    assert d[k..][1..] == d[k + 1..];
  }

  lemma ClientTargets(l: SeedLayout)
    requires DistinctPaths(l)
    ensures Targets(SeedDependencies(l), l.client) == [l.auth]
  {
    TargetsOfSix(SeedDependencies(l), l.client);
  }

  lemma AuthTargets(l: SeedLayout)
    requires DistinctPaths(l)
    ensures Targets(SeedDependencies(l), l.auth) == [l.client]
  {
    TargetsOfSix(SeedDependencies(l), l.auth);
  }

  /** A component points at client.ts and the formatters. */
  lemma ComponentTargets(l: SeedLayout, n: string)
    requires DistinctPaths(l) && (n == l.userProfile || n == l.settings)
    ensures Targets(SeedDependencies(l), n) == [l.client, l.formatters]
  {
    TargetsOfSix(SeedDependencies(l), n);
  }

  /** The formatters and the legacy module point nowhere. */
  lemma LeafTargets(l: SeedLayout, n: string)
    requires DistinctPaths(l) && (n == l.formatters || n == l.oldUtils)
    ensures Targets(SeedDependencies(l), n) == []
  {
    TargetsOfSix(SeedDependencies(l), n);
  }

  /** The record at `k` is a node of the graph, with its own targets as neighbours. */
  lemma GraphNode(files: seq<CodeFile>, deps: seq<Dependency>, k: nat)
    requires k < |files|
    ensures files[k].path in BuildGraph(files, deps) && Neighbors(BuildGraph(files, deps), files[k].path) == Targets(deps, files[k].path)
  {
    assert HasPath(files, files[k].path);
    BuildGraphSpec(files, deps, files[k].path);
  }

  lemma SeedGraph(files: seq<CodeFile>, l: SeedLayout)
    requires SeedOrder(files, l) && DistinctPaths(l)
    ensures SeedGraphShape(BuildGraph(files, SeedDependencies(l)), l)
  {
    var d := SeedDependencies(l);
    ClientTargets(l);
    AuthTargets(l);
    LeafTargets(l, l.formatters);
    ComponentTargets(l, l.userProfile);
    ComponentTargets(l, l.settings);
    LeafTargets(l, l.oldUtils);
    GraphNode(files, d, 0);
    GraphNode(files, d, 1);
    GraphNode(files, d, 2);
    GraphNode(files, d, 3);
    GraphNode(files, d, 4);
    GraphNode(files, d, 5);
  }

  lemma SeedPathList(files: seq<CodeFile>, l: SeedLayout)
    requires SeedOrder(files, l)
    ensures Paths(files) == [l.client, l.auth, l.formatters, l.userProfile, l.settings, l.oldUtils]
  {
  }

  /** Neighbours that are all finished and off the path are skipped. */
  lemma {:induction false} SkipFinished(g: Graph, node: string, path: seq<string>, i: nat, s: SearchState)
    requires node in Vertices(g) && node in s.visiting && i <= |Neighbors(g, node)|
    requires forall j :: i <= j < |Neighbors(g, node)| ==> Neighbors(g, node)[j] !in s.visiting && Neighbors(g, node)[j] in s.visited
    ensures VisitNeighbors(g, node, path, i, s) == s
    decreases |Neighbors(g, node)| - i
  {
    if i < |Neighbors(g, node)| {
      SkipFinished(g, node, path, i + 1, s);
    }
  }

  /** A node whose neighbours are all finished is finished in turn, and nothing else changes. */
  lemma VisitFinished(g: Graph, node: string, path: seq<string>, s: SearchState)
    requires node in Vertices(g) && node !in s.visiting
    requires forall v :: v in Neighbors(g, node) ==> v != node && v !in s.visiting && v in s.visited
    ensures Visit(g, node, path, s) == s.(visited := AddVisited(s.visited, node))
  {
    var s1 := s.(visiting := s.visiting + {node});
    SkipFinished(g, node, path + [node], 0, s1);
    assert s1.visiting - {node} == s.visiting;
  }

  /** From auth.ts, on the path [client.ts, auth.ts], the edge back to client.ts closes the cycle. */
  lemma CloseCycle(g: Graph, c: string, a: string)
    requires a in g && Neighbors(g, a) == [c] && c != a
    ensures VisitNeighbors(g, a, [c, a], 0, SearchState({c, a}, [], [])) == SearchState({c, a}, [], [[c, a]])
  {
    assert IndexOf([c, a], c) == 0;
    assert SliceFrom([c, a], 0) == [c, a];
    assert !Known([], [c, a]);
  }

  lemma VisitAuth(g: Graph, c: string, a: string)
    requires a in g && Neighbors(g, a) == [c] && c != a
    ensures Visit(g, a, [c], SearchState({c}, [], [])) == SearchState({c}, [a], [[c, a]])
  {
    CloseCycle(g, c, a);
    assert {c} + {a} == {c, a} && {c, a} - {a} == {c};
    assert [c] + [a] == [c, a];
  }

  lemma VisitClientNeighbors(g: Graph, c: string, a: string)
    requires c in g && a in g && Neighbors(g, c) == [a] && Neighbors(g, a) == [c] && c != a
    ensures VisitNeighbors(g, c, [c], 0, SearchState({c}, [], [])) == SearchState({c}, [a], [[c, a]])
  {
    VisitAuth(g, c, a);
  }

  /** The first root, client.ts, finishes auth.ts and itself and reports the one cycle. */
  lemma VisitClient(g: Graph, c: string, a: string)
    requires c in g && a in g && Neighbors(g, c) == [a] && Neighbors(g, a) == [c] && c != a
    ensures Visit(g, c, [], SearchState({}, [], [])) == SearchState({}, [a, c], [[c, a]])
  {
    VisitClientNeighbors(g, c, a);
    assert {} + {c} == {c} && {c} - {c} == {};
    assert [] + [c] == [c];
  }

  /** The search over a suffix of the roots: its first root, then the rest. */
  lemma SearchStep(g: Graph, roots: seq<string>, k: nat, s: SearchState)
    requires k < |roots| && (forall j :: 0 <= j < |roots| ==> roots[j] in Vertices(g)) && s.visiting == {}
    ensures SearchFrom(g, roots[k..], s)
            == SearchFrom(g, roots[k + 1..], if roots[k] in s.visited then s else Visit(g, roots[k], [], s))
  {
    assert roots[k..][1..] == roots[k + 1..];
  }

  /** A root not yet finished whose neighbours are all finished just joins the finished nodes. */
  lemma SearchFinishedRoot(g: Graph, roots: seq<string>, k: nat, s: SearchState)
    requires k < |roots| && (forall j :: 0 <= j < |roots| ==> roots[j] in Vertices(g)) && s.visiting == {}
    requires roots[k] !in s.visited
    requires forall v :: v in Neighbors(g, roots[k]) ==> v != roots[k] && v in s.visited
    ensures SearchFrom(g, roots[k..], s) == SearchFrom(g, roots[k + 1..], s.(visited := s.visited + [roots[k]]))
  {
    SearchStep(g, roots, k, s);
    VisitFinished(g, roots[k], [], s);
  }

  /** A root already finished is skipped. */
  lemma SearchFinishedSkip(g: Graph, roots: seq<string>, k: nat, s: SearchState)
    requires k < |roots| && (forall j :: 0 <= j < |roots| ==> roots[j] in Vertices(g)) && s.visiting == {}
    requires roots[k] in s.visited
    ensures SearchFrom(g, roots[k..], s) == SearchFrom(g, roots[k + 1..], s)
  {
    SearchStep(g, roots, k, s);
  }

  /**
   * The search from client.ts visits auth.ts, whose edge back to client.ts
   * closes the one cycle; every later root is finished or has only finished
   * neighbours.
   */
  lemma SeedSearch(g: Graph, l: SeedLayout)
    requires SeedGraphShape(g, l) && DistinctPaths(l)
    ensures FindCycles(g, [l.client, l.auth, l.formatters, l.userProfile, l.settings, l.oldUtils]) == [[l.client, l.auth]]
  {
    var c, a, f, u, s, o := l.client, l.auth, l.formatters, l.userProfile, l.settings, l.oldUtils;
    var roots := [c, a, f, u, s, o];
    var s2 := SearchState({}, [a, c], [[c, a]]);
    RootsInGraph(g, l, roots);
    VisitClient(g, c, a);
    SearchStep(g, roots, 0, SearchState({}, [], []));
    assert roots[0..] == roots;
    SearchFinishedSkip(g, roots, 1, s2);
    LaterRoots(g, l, roots, s2);
  }

  lemma RootsInGraph(g: Graph, l: SeedLayout, roots: seq<string>)
    requires SeedGraphShape(g, l)
    requires roots == [l.client, l.auth, l.formatters, l.userProfile, l.settings, l.oldUtils]
    ensures forall j :: 0 <= j < |roots| ==> roots[j] in Vertices(g)
  {
  }

  /** The formatters, the components and the legacy module only add themselves to the finished nodes. */
  lemma LaterRoots(g: Graph, l: SeedLayout, roots: seq<string>, s2: SearchState)
    requires SeedGraphShape(g, l) && DistinctPaths(l)
    requires roots == [l.client, l.auth, l.formatters, l.userProfile, l.settings, l.oldUtils]
    requires s2 == SearchState({}, [l.auth, l.client], [[l.client, l.auth]])
    ensures forall j :: 0 <= j < |roots| ==> roots[j] in Vertices(g)
    ensures SearchFrom(g, roots[2..], s2).cycles == [[l.client, l.auth]]
  {
    RootsInGraph(g, l, roots);
    var c, a, f, u, s, o := l.client, l.auth, l.formatters, l.userProfile, l.settings, l.oldUtils;
    var cycles := [[c, a]];
    FormattersRoot(g, l, roots, cycles);
    ComponentRoots(g, l, roots, cycles);
    OldUtilsRoot(g, l, roots, cycles);
  }

  lemma FormattersRoot(g: Graph, l: SeedLayout, roots: seq<string>, cycles: seq<seq<string>>)
    requires (forall j :: 0 <= j < |roots| ==> roots[j] in Vertices(g)) && DistinctPaths(l)
    requires roots == [l.client, l.auth, l.formatters, l.userProfile, l.settings, l.oldUtils]
    requires Neighbors(g, l.formatters) == []
    ensures SearchFrom(g, roots[2..], SearchState({}, [l.auth, l.client], cycles))
            == SearchFrom(g, roots[3..], SearchState({}, [l.auth, l.client, l.formatters], cycles))
  {
    LaterRoot(g, roots, 2, [l.auth, l.client], cycles);
    assert [l.auth, l.client] + [l.formatters] == [l.auth, l.client, l.formatters];
  }

  lemma ComponentRoots(g: Graph, l: SeedLayout, roots: seq<string>, cycles: seq<seq<string>>)
    requires (forall j :: 0 <= j < |roots| ==> roots[j] in Vertices(g)) && DistinctPaths(l)
    requires roots == [l.client, l.auth, l.formatters, l.userProfile, l.settings, l.oldUtils]
    requires Neighbors(g, l.userProfile) == [l.client, l.formatters] && Neighbors(g, l.settings) == [l.client, l.formatters]
    ensures SearchFrom(g, roots[3..], SearchState({}, [l.auth, l.client, l.formatters], cycles))
            == SearchFrom(g, roots[5..], SearchState({}, [l.auth, l.client, l.formatters, l.userProfile, l.settings], cycles))
  {
    var v3 := [l.auth, l.client, l.formatters];
    LaterRoot(g, roots, 3, v3, cycles);
    assert v3 + [l.userProfile] == [l.auth, l.client, l.formatters, l.userProfile];
    LaterRoot(g, roots, 4, v3 + [l.userProfile], cycles);
    assert v3 + [l.userProfile] + [l.settings] == [l.auth, l.client, l.formatters, l.userProfile, l.settings];
  }

  lemma OldUtilsRoot(g: Graph, l: SeedLayout, roots: seq<string>, cycles: seq<seq<string>>)
    requires (forall j :: 0 <= j < |roots| ==> roots[j] in Vertices(g)) && DistinctPaths(l)
    requires roots == [l.client, l.auth, l.formatters, l.userProfile, l.settings, l.oldUtils]
    requires Neighbors(g, l.oldUtils) == []
    ensures SearchFrom(g, roots[5..], SearchState({}, [l.auth, l.client, l.formatters, l.userProfile, l.settings], cycles)).cycles == cycles
  {
    LaterRoot(g, roots, 5, [l.auth, l.client, l.formatters, l.userProfile, l.settings], cycles);
    assert roots[6..] == [];
  }

  /** One later root: not finished yet, with only finished neighbours. */
  lemma LaterRoot(g: Graph, roots: seq<string>, k: nat, visited: seq<string>, cycles: seq<seq<string>>)
    requires k < |roots| && (forall j :: 0 <= j < |roots| ==> roots[j] in Vertices(g))
    requires roots[k] !in visited
    requires forall v :: v in Neighbors(g, roots[k]) ==> v in visited
    ensures SearchFrom(g, roots[k..], SearchState({}, visited, cycles))
            == SearchFrom(g, roots[k + 1..], SearchState({}, visited + [roots[k]], cycles))
  {
    SearchFinishedRoot(g, roots, k, SearchState({}, visited, cycles));
  }
}
