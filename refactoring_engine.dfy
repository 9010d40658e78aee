/**
 * The scripted refactorings of the console (services/refactoringEngine.ts):
 * a dispatch on the task id and two rewrites of the file snapshot, each of
 * which copies the list and overwrites the content of fixed records.
 */
module Refactoring {
  import opened Wrappers
  import opened Types
  import opened JsStrings
  import opened Estree
  import opened ImportResolution
  import Analysis

  datatype RefactoringTaskType = BreakCircularDependency | RemoveDeadCode

  /** A task of the agent panel; only `id` selects the rewrite. */
  datatype RefactoringTask = RefactoringTask(
    id: string,
    taskType: RefactoringTaskType,
    titleKey: string,
    descriptionKey: string,
    filesInvolved: seq<string>,
    planKeys: seq<string>)

  const CIRCULAR_DEP_AUTH_CLIENT: string := "CIRCULAR_DEP_AUTH_CLIENT"
  const DEAD_CODE_OLD_UTILS: string := "DEAD_CODE_OLD_UTILS"

  // Paths and specifiers are spelt segment by segment ("src/services/auth.ts" and so on) so that
  // the resolution lemmas ResolveParentImport and ResolveSiblingImport, which take the segments
  // as parameters, apply to them as written.
  const AUTH_PATH: string := "src" + "/" + "services" + "/" + "auth.ts"
  const CLIENT_PATH: string := "src" + "/" + "api" + "/" + "client.ts"
  const TOKEN_PROVIDER_PATH: string := "src" + "/" + "services" + "/" + "tokenProvider" + ".ts"
  const OLD_UTILS_PATH: string := "src" + "/" + "legacy" + "/" + "old-utils.ts"

  /** The import specifiers of the rewritten auth.ts and client.ts. */
  const AUTH_PROVIDER_IMPORT: string := "./" + "tokenProvider" + ".ts"
  const CLIENT_PROVIDER_IMPORT: string := "../" + "services" + "/" + "tokenProvider" + ".ts"

  const TOKEN_PROVIDER_CONTENT: string :=
      "\n"
    + "let authToken = 'secret-token-123';\n"
    + "\n"
    + "export function getAuthToken() {\n"
    + "    return authToken;\n"
    + "}\n"
    + "\n"
    + "export function setAuthToken(token) {\n"
    + "    authToken = token;\n"
    + "}\n"

  const AUTH_CONTENT: string :=
      "import { setAuthToken as setProviderToken } from './tokenProvider.ts';\n"
    + "\n"
    + "// This function now uses the provider to set the token,\n"
    + "// removing the need for a direct dependency on ApiClient.\n"
    + "export function setAuthToken(token) {\n"
    + "    console.log('Setting auth token via provider.');\n"
    + "    setProviderToken(token);\n"
    + "}\n"

  const CLIENT_CONTENT: string :=
      "import { getAuthToken } from '../services/tokenProvider.ts';\n"
    + "\n"
    + "export class ApiClient {\n"
    + "    constructor() {\n"
    + "        console.log('API Client initialized');\n"
    + "    }\n"
    + "\n"
    + "    fetchData(endpoint) {\n"
    + "        const token = getAuthToken();\n"
    + "        console.log(`Fetching ${endpoint} with token ${token}`);\n"
    + "        return { success: true };\n"
    + "    }\n"
    + "}\n"

  const OLD_UTILS_CONTENT: string :=
      "// This file contained deprecated functions.\n"
    + "// The dead code has been removed by the AI agent.\n"
    + "\n"
    + "/*\n"
    + "export function oldUnusedFunction() {\n"
    + "    console.log(\"I am never called.\");\n"
    + "    return true;\n"
    + "}\n"
    + "\n"
    + "export function anotherOldOne() {\n"
    + "    return 'still here';\n"
    + "}\n"
    + "*/\n"

  /** The record the circular-dependency rewrite appends. */
  const TOKEN_PROVIDER_FILE: CodeFile := CodeFile(TOKEN_PROVIDER_PATH, TOKEN_PROVIDER_CONTENT)

  /** `files.findIndex(f => f.path === path)`: the first index with that path, or -1. */
  function FindIndex(files: seq<CodeFile>, path: string): (k: int)
    ensures -1 <= k < |files|
    ensures k >= 0 ==> files[k].path == path && forall j :: 0 <= j < k ==> files[j].path != path
    ensures k == -1 <==> !HasPath(files, path)
    decreases |files|
  {
    if files == [] then -1
    else if files[0].path == path then 0
    else
      var k := FindIndex(files[1..], path);
      assert forall j :: 1 <= j < |files| ==> files[j] == files[1..][j - 1];
      if k == -1 then -1 else k + 1
  }

  /** The index lookup depends on the paths alone. */
  lemma {:induction false} FindIndexByPaths(a: seq<CodeFile>, b: seq<CodeFile>, path: string)
    requires |a| == |b| && forall i :: 0 <= i < |a| ==> a[i].path == b[i].path
    ensures FindIndex(a, path) == FindIndex(b, path)
  {
    if a != [] {
      assert forall i :: 0 <= i < |a| - 1 ==> a[1..][i] == a[i + 1] && b[1..][i] == b[i + 1];
      FindIndexByPaths(a[1..], b[1..], path);
    }
  }

  /**
   * The snapshot after `find(f => f.path === path)` handed out the first record
   * with that path and its content was overwritten; no record changes when
   * there is none.
   */
  function WithContent(files: seq<CodeFile>, path: string, content: string): (r: seq<CodeFile>)
    ensures |r| == |files| && Paths(r) == Paths(files)
    ensures forall i :: 0 <= i < |files| ==>
      r[i] == if files[i].path == path && forall j :: 0 <= j < i ==> files[j].path != path
              then CodeFile(path, content) else files[i]
  {
    var k := FindIndex(files, path);
    if k < 0 then files else files[k := CodeFile(path, content)]
  }

  /** Overwriting a path the snapshot does not hold changes nothing. */
  lemma WithContentAbsent(files: seq<CodeFile>, path: string, content: string)
    requires !HasPath(files, path)
    ensures WithContent(files, path, content) == files
  {
    var r := WithContent(files, path, content);
    forall i | 0 <= i < |files| ensures r[i] == files[i] {
      assert files[i].path != path;
    }
  }

  /** Overwriting the same record twice with the same content is overwriting it once. */
  lemma WithContentIdempotent(files: seq<CodeFile>, path: string, content: string)
    ensures WithContent(WithContent(files, path, content), path, content) == WithContent(files, path, content)
  {
    var r := WithContent(files, path, content);
    var rr := WithContent(r, path, content);
    forall i | 0 <= i < |files| ensures rr[i] == r[i] {
      assert r[i].path == Paths(r)[i] == Paths(files)[i] == files[i].path;
      forall j | 0 <= j < i ensures r[j].path == files[j].path {
        assert r[j].path == Paths(r)[j] == Paths(files)[j];
      }
    }
  }

  /** The copied records after the first auth.ts and the first client.ts are given their new content. */
  function Rewritten(files: seq<CodeFile>): seq<CodeFile>
  {
    WithContent(WithContent(files, AUTH_PATH, AUTH_CONTENT), CLIENT_PATH, CLIENT_CONTENT)
  }

  /** The records `breakCircularDependencyAuthClient` returns. */
  function BreakCircularResult(files: seq<CodeFile>): seq<CodeFile>
  {
    Rewritten(files) + [TOKEN_PROVIDER_FILE]
  }

  /** The records `removeDeadCodeOldUtils` returns. */
  function RemoveDeadCodeResult(files: seq<CodeFile>): seq<CodeFile>
  {
    WithContent(files, OLD_UTILS_PATH, OLD_UTILS_CONTENT)
  }

  /** The records `execute` returns for a task. */
  function ExecuteResult(files: seq<CodeFile>, task: RefactoringTask): seq<CodeFile>
  {
    if task.id == CIRCULAR_DEP_AUTH_CLIENT then BreakCircularResult(files)
    else if task.id == DEAD_CODE_OLD_UTILS then RemoveDeadCodeResult(files)
    else files
  }

  /**
   * `filter(f => f.path !== AUTH_PATH || authFile)`: drops the auth records
   * when the lookup found none.
   */
  function KeepAuth(files: seq<CodeFile>, authFound: bool): (r: seq<CodeFile>)
    ensures forall f :: f in r <==> f in files && (f.path != AUTH_PATH || authFound)
  {
    if files == [] then []
    else if files[0].path != AUTH_PATH || authFound then [files[0]] + KeepAuth(files[1..], authFound)
    else KeepAuth(files[1..], authFound)
  }

  /** The filter drops nothing: either the record was found or there is none to drop. */
  lemma {:induction false} KeepAuthKeepsAll(files: seq<CodeFile>, authFound: bool)
    requires authFound || !HasPath(files, AUTH_PATH)
    ensures KeepAuth(files, authFound) == files
  {
    if files != [] {
      assert !authFound ==> !HasPath(files[1..], AUTH_PATH) by {
        forall i | 0 <= i < |files[1..]| ensures !authFound ==> files[1..][i].path != AUTH_PATH {
          assert files[1..][i] == files[i + 1];
        }
      }
      KeepAuthKeepsAll(files[1..], authFound);
      if !authFound { assert files[0].path != AUTH_PATH; }
    }
  }

  /**
   * After the two overwrites, the filter keeps every record, and the first
   * auth.ts (if any) is where it was, already holding its new content.
   */
  lemma RewrittenAuthSlot(files: seq<CodeFile>)
    ensures KeepAuth(Rewritten(files), FindIndex(files, AUTH_PATH) != -1) == Rewritten(files)
    ensures FindIndex(Rewritten(files), AUTH_PATH) == FindIndex(files, AUTH_PATH)
    ensures FindIndex(files, AUTH_PATH) != -1 ==>
              Rewritten(files)[FindIndex(files, AUTH_PATH)] == CodeFile(AUTH_PATH, AUTH_CONTENT)
  {
    var w := WithContent(files, AUTH_PATH, AUTH_CONTENT);
    WithContentKeepsIndex(files, AUTH_PATH, AUTH_CONTENT, AUTH_PATH);
    WithContentKeepsIndex(w, CLIENT_PATH, CLIENT_CONTENT, AUTH_PATH);
    assert AUTH_PATH != CLIENT_PATH by { assert |AUTH_PATH| != |CLIENT_PATH|; }
    SecondWriteKeepsFirst(files, AUTH_PATH, AUTH_CONTENT, CLIENT_PATH, CLIENT_CONTENT);
    KeepAuthKeepsAll(Rewritten(files), FindIndex(files, AUTH_PATH) != -1);
  }

  /** Overwriting a content leaves every index lookup as it was. */
  lemma WithContentKeepsIndex(files: seq<CodeFile>, path: string, content: string, p: string)
    ensures FindIndex(WithContent(files, path, content), p) == FindIndex(files, p)
  {
    var w := WithContent(files, path, content);
    assert forall i :: 0 <= i < |files| ==> w[i].path == Paths(w)[i] == files[i].path;
    FindIndexByPaths(files, w, p);
  }

  /** A second overwrite at another path leaves the first overwritten record in place. */
  lemma SecondWriteKeepsFirst(files: seq<CodeFile>, p1: string, c1: string, p2: string, c2: string)
    requires p1 != p2
    ensures FindIndex(files, p1) != -1 ==>
              WithContent(WithContent(files, p1, c1), p2, c2)[FindIndex(files, p1)] == CodeFile(p1, c1)
  {
    var k := FindIndex(files, p1);
    if k != -1 {
      var w := WithContent(files, p1, c1);
      assert w[k] == CodeFile(p1, c1);
      assert WithContent(w, p2, c2)[k] == w[k];
    }
  }

  /** `newFiles.find(f => f.path === path)` over the copied records, as an index (-1 if none). */
  method Find(a: array<CodeFile>, path: string) returns (k: int)
    ensures k == FindIndex(a[..], path)
  {
    k := 0;
    while k < a.Length
      invariant 0 <= k <= a.Length
      invariant forall j :: 0 <= j < k ==> a[j].path != path
    {
      if a[k].path == path {
        return;
      }
      k := k + 1;
    }
    k := -1;
  }

  /** `files.map(f => ({ ...f }))`: a fresh array holding a copy of every record. */
  method CopyFiles(files: seq<CodeFile>) returns (a: array<CodeFile>)
    ensures fresh(a) && a[..] == files
  {
    a := new CodeFile[|files|](i requires 0 <= i < |files| => files[i]);
  }

  /**
   * The in-place half of the circular-dependency rewrite: copies the records
   * and overwrites the content of the first auth.ts and the first client.ts;
   * `authIndex` tells whether auth.ts was found.
   */
  method RewriteAuthAndClient(files: seq<CodeFile>) returns (newFiles: array<CodeFile>, authIndex: int)
    ensures fresh(newFiles)
    ensures newFiles[..] == Rewritten(files)
    ensures authIndex == FindIndex(files, AUTH_PATH)
  {
    newFiles := CopyFiles(files);
    authIndex := Find(newFiles, AUTH_PATH);
    var clientIndex := Find(newFiles, CLIENT_PATH);
    if authIndex != -1 {
      newFiles[authIndex] := CodeFile(AUTH_PATH, AUTH_CONTENT);
    }
    ghost var afterAuth := newFiles[..];
    assert afterAuth == WithContent(files, AUTH_PATH, AUTH_CONTENT);
    FindIndexByPaths(files, afterAuth, CLIENT_PATH);
    if clientIndex != -1 {
      newFiles[clientIndex] := CodeFile(CLIENT_PATH, CLIENT_CONTENT);
    }
  }

  /**
   * Rewrites auth.ts and client.ts so that both import the token from a new
   * provider module, and appends that module.
   */
  method BreakCircularDependencyAuthClient(files: seq<CodeFile>) returns (result: seq<CodeFile>)
    ensures result == BreakCircularResult(files)
  {
    var newFiles, authIndex := RewriteAuthAndClient(files);
    var authFound := authIndex != -1;
    var authFile := CodeFile(AUTH_PATH, AUTH_CONTENT);
    RewrittenAuthSlot(files);
    var kept := KeepAuth(newFiles[..], authFound);
    assert kept == Rewritten(files);
    if authFound {
      // the record found above, already rewritten, is written back to its own slot
      var index := FindIndex(kept, AUTH_PATH);
      if index != -1 {
        UpdateWithSame(kept, index, authFile);
        kept := kept[index := authFile];
      }
    }
    result := kept + [TOKEN_PROVIDER_FILE];
  }

  /** Replaces the content of old-utils.ts with a note on what was removed. */
  method RemoveDeadCodeOldUtils(files: seq<CodeFile>) returns (result: seq<CodeFile>)
    ensures result == RemoveDeadCodeResult(files)
  {
    var newFiles := CopyFiles(files);
    var index := Find(newFiles, OLD_UTILS_PATH);
    if index != -1 {
      newFiles[index] := CodeFile(OLD_UTILS_PATH, OLD_UTILS_CONTENT);
    }
    result := newFiles[..];
  }

  /** Runs the rewrite a task names; any other task leaves the snapshot as it is. */
  method Execute(files: seq<CodeFile>, task: RefactoringTask) returns (result: seq<CodeFile>)
    ensures result == ExecuteResult(files, task)
    ensures task.id != CIRCULAR_DEP_AUTH_CLIENT && task.id != DEAD_CODE_OLD_UTILS ==> result == files
  {
    if task.id == CIRCULAR_DEP_AUTH_CLIENT {
      result := BreakCircularDependencyAuthClient(files);
    } else if task.id == DEAD_CODE_OLD_UTILS {
      result := RemoveDeadCodeOldUtils(files);
    } else {
      result := files;
    }
  }

  /**
   * The circular-dependency rewrite keeps every record in place, overwrites
   * the content of the first auth.ts and the first client.ts only, and adds
   * the provider module at the end.
   */
  lemma BreakCircularShape(files: seq<CodeFile>)
    ensures var r := BreakCircularResult(files);
      && |r| == |files| + 1
      && Paths(r) == Paths(files) + [TOKEN_PROVIDER_PATH]
      && r[|files|] == TOKEN_PROVIDER_FILE
      && (forall i :: 0 <= i < |files| ==>
            r[i].content == if i == FindIndex(files, AUTH_PATH) then AUTH_CONTENT
                            else if i == FindIndex(files, CLIENT_PATH) then CLIENT_CONTENT
                            else files[i].content)
  {
    var w := WithContent(files, AUTH_PATH, AUTH_CONTENT);
    var r := BreakCircularResult(files);
    assert forall i :: 0 <= i < |files| ==> w[i].path == files[i].path;
    FindIndexByPaths(files, w, CLIENT_PATH);
    forall i | 0 <= i < |files|
      ensures r[i].content == if i == FindIndex(files, AUTH_PATH) then AUTH_CONTENT
                              else if i == FindIndex(files, CLIENT_PATH) then CLIENT_CONTENT
                              else files[i].content
    {
      var ka, kc := FindIndex(files, AUTH_PATH), FindIndex(files, CLIENT_PATH);
      assert r[i] == WithContent(w, CLIENT_PATH, CLIENT_CONTENT)[i];
      if i == ka {
        assert i != kc;
      } else if i == kc {
      } else {
        assert files[i].path == AUTH_PATH ==> exists j :: 0 <= j < i && files[j].path == AUTH_PATH;
        assert w[i] == files[i];
        assert w[i].path == CLIENT_PATH ==> exists j :: 0 <= j < i && files[j].path == CLIENT_PATH;
      }
    }
  }

  /** The paths alone: the snapshot's paths in order, then the provider's. */
  lemma BreakCircularPaths(files: seq<CodeFile>)
    ensures var r := BreakCircularResult(files);
      && |r| == |files| + 1
      && (forall i :: 0 <= i < |files| ==> r[i].path == files[i].path)
      && r[|files|].path == TOKEN_PROVIDER_PATH
  {
    var r := BreakCircularResult(files);
    forall i | 0 <= i < |files| ensures r[i].path == files[i].path {
      assert r[i].path == Paths(Rewritten(files))[i];
    }
  }

  /** Each run of the circular-dependency rewrite adds exactly one provider record. */
  lemma BreakCircularAddsOneProvider(files: seq<CodeFile>)
    ensures multiset(Paths(BreakCircularResult(files))) == multiset(Paths(files)) + multiset{TOKEN_PROVIDER_PATH}
  {
    BreakCircularShape(files);
  }

  /**
   * The rewrite is not idempotent: running the task twice leaves two
   * provider records, whatever the snapshot held before.
   */
  lemma BreakCircularTwice(files: seq<CodeFile>)
    ensures var r := BreakCircularResult(BreakCircularResult(files));
      multiset(Paths(r))[TOKEN_PROVIDER_PATH] == multiset(Paths(files))[TOKEN_PROVIDER_PATH] + 2
  {
    BreakCircularAddsOneProvider(files);
    BreakCircularAddsOneProvider(BreakCircularResult(files));
  }

  /**
   * The dead-code rewrite overwrites the first old-utils.ts and nothing
   * else, leaves a snapshot without it unchanged, and is idempotent.
   */
  lemma RemoveDeadCodeEffect(files: seq<CodeFile>)
    ensures var r := RemoveDeadCodeResult(files);
      && Paths(r) == Paths(files)
      && (HasPath(files, OLD_UTILS_PATH) ==>
            r[FindIndex(files, OLD_UTILS_PATH)].content == OLD_UTILS_CONTENT
            && forall i :: 0 <= i < |files| && i != FindIndex(files, OLD_UTILS_PATH) ==> r[i] == files[i])
      && (!HasPath(files, OLD_UTILS_PATH) ==> r == files)
      && RemoveDeadCodeResult(r) == r
  {
    var r := RemoveDeadCodeResult(files);
    var k := FindIndex(files, OLD_UTILS_PATH);
    if HasPath(files, OLD_UTILS_PATH) {
      forall i | 0 <= i < |files| && i != k ensures r[i] == files[i] {
        if i > k {
          assert !(forall j :: 0 <= j < i ==> files[j].path != OLD_UTILS_PATH) by {
            assert files[k].path == OLD_UTILS_PATH;
          }
        }
      }
    } else {
      WithContentAbsent(files, OLD_UTILS_PATH, OLD_UTILS_CONTENT);
    }
    WithContentIdempotent(files, OLD_UTILS_PATH, OLD_UTILS_CONTENT);
  }

  /** auth.ts's new import specifier designates the provider module. */
  lemma AuthImportResolves()
    ensures ResolvedPath(AUTH_PATH, AUTH_PROVIDER_IMPORT) == TOKEN_PROVIDER_PATH
  {
    NoDotNoTs("tokenProvider");
    ResolveSiblingImport(AUTH_PATH, "tokenProvider", ".ts");
    BasePathOfNested("src", "services", "auth.ts");
  }

  /** client.ts's new import specifier designates the provider module. */
  lemma ClientImportResolves()
    ensures ResolvedPath(CLIENT_PATH, CLIENT_PROVIDER_IMPORT) == TOKEN_PROVIDER_PATH
  {
    NoDotNoTs("tokenProvider");
    NoDotNoTs("services");
    ResolveParentImport("src", "api", "client.ts", "services", "tokenProvider", ".ts");
  }

  /**
   * After the rewrite, an import of the new specifier from auth.ts or from
   * client.ts is an edge to the provider module, unless the snapshot already
   * held a "tokenProvider.tsx" that the lookup would find first.
   */
  lemma RewrittenImportsReachProvider(files: seq<CodeFile>, specifiers: seq<ModuleSpecifier>)
    requires !HasPath(files, TOKEN_PROVIDER_PATH + "x")
    ensures var r := BreakCircularResult(files);
      && ImportTarget(r, AUTH_PATH, ImportDeclaration(AUTH_PROVIDER_IMPORT, specifiers)) == Some(TOKEN_PROVIDER_PATH)
      && ImportTarget(r, CLIENT_PATH, ImportDeclaration(CLIENT_PROVIDER_IMPORT, specifiers)) == Some(TOKEN_PROVIDER_PATH)
  {
    var r := BreakCircularResult(files);
    BreakCircularShape(files);
    AuthImportResolves();
    ClientImportResolves();
    assert r[|files|].path == TOKEN_PROVIDER_PATH;
    ProviderFound(files, r);
  }

  lemma ProviderFound(files: seq<CodeFile>, r: seq<CodeFile>)
    requires !HasPath(files, TOKEN_PROVIDER_PATH + "x")
    requires |r| == |files| + 1 && Paths(r) == Paths(files) + [TOKEN_PROVIDER_PATH]
    ensures FindTarget(r, TOKEN_PROVIDER_PATH) == Some(TOKEN_PROVIDER_PATH)
  {
    var t := FindTarget(r, TOKEN_PROVIDER_PATH);
    assert r[|files|].path == Paths(r)[|files|] == TOKEN_PROVIDER_PATH;
    assert Matches(r[|files|].path, TOKEN_PROVIDER_PATH);
    var i :| 0 <= i < |r| && r[i].path == t.value && Matches(t.value, TOKEN_PROVIDER_PATH);
    if i < |files| {
      assert r[i].path == Paths(r)[i] == files[i].path;
    }
  }

  // ---------------------------------------------------------------------
  // The analysis of the rewritten snapshot
  // ---------------------------------------------------------------------

  /** Every import statement of the module imports `source`. */
  predicate OnlyImportsFrom(prog: Program, source: string)
  {
    forall j :: 0 <= j < |prog.body| && prog.body[j].ImportDeclaration? ==> prog.body[j].source == source
  }

  /** The snapshot holds at most one record with this path. */
  predicate AtMostOneRecord(files: seq<CodeFile>, path: string)
  {
    forall i, j :: 0 <= i < |files| && 0 <= j < |files| && files[i].path == path && files[j].path == path ==> i == j
  }

  /**
   * A snapshot extended by one record of another path: when the snapshot
   * held `path` once, the analysis of the extended snapshot reads the tree
   * of the record at that same position.
   */
  lemma ExtendedSnapshotTree(files: seq<CodeFile>, r: seq<CodeFile>, parser: Analysis.Parser, path: string)
    requires |r| == |files| + 1 && r[|files|].path != path
    requires forall i :: 0 <= i < |files| ==> r[i].path == files[i].path
    requires AtMostOneRecord(files, path) && HasPath(r, path)
    ensures 0 <= FindIndex(files, path) < |files|
    ensures Analysis.AstOf(Analysis.Asts(r, parser), path) == Analysis.ParseOrEmpty(parser, r[FindIndex(files, path)].content)
  {
    var i :| 0 <= i < |r| && r[i].path == path;
    assert files[i].path == path;
    var k := FindIndex(files, path);
    forall j | 0 <= j < |r| && j != k ensures r[j].path != path {
      if j < |files| {
        assert files[j].path == r[j].path;
      }
    }
    Analysis.AstOfLast(r, parser, k);
  }

  /** A file whose every import resolves to the provider has edges to the provider only. */
  lemma EdgesToProviderOnly(r: seq<CodeFile>, parser: Analysis.Parser, source: string, d: Dependency)
    requires OnlyImportsFrom(Analysis.AstOf(Analysis.Asts(r, parser), d.from), source)
    requires source != "" ==> FindTarget(r, ResolvedPath(d.from, source)) == Some(TOKEN_PROVIDER_PATH)
    requires d in Analysis.Analyze(r, parser).dependencies
    ensures d.to == TOKEN_PROVIDER_PATH
  {
    Analysis.AnalyzeDependencies(r, parser, d);
    var body := Analysis.AstOf(Analysis.Asts(r, parser), d.from).body;
    var j :| 0 <= j < |body| && ImportTarget(r, d.from, body[j]) == Some(d.to);
  }

  /**
   * The rewrite breaks the auth/client cycle: when the snapshot holds
   * auth.ts and client.ts at most once each and no tokenProvider.tsx, and
   * the only imports of the two new module texts are the provider imports,
   * every edge the analysis reports from auth.ts or client.ts goes to the
   * provider, so neither imports the other.
   */
  lemma RewriteBreaksAuthClientCycle(files: seq<CodeFile>, parser: Analysis.Parser)
    requires OnlyImportsFrom(Analysis.ParseOrEmpty(parser, AUTH_CONTENT), AUTH_PROVIDER_IMPORT)
    requires OnlyImportsFrom(Analysis.ParseOrEmpty(parser, CLIENT_CONTENT), CLIENT_PROVIDER_IMPORT)
    requires AtMostOneRecord(files, AUTH_PATH) && AtMostOneRecord(files, CLIENT_PATH)
    requires !HasPath(files, TOKEN_PROVIDER_PATH + "x")
    ensures var deps := Analysis.Analyze(BreakCircularResult(files), parser).dependencies;
      && (forall d :: d in deps && (d.from == AUTH_PATH || d.from == CLIENT_PATH) ==> d.to == TOKEN_PROVIDER_PATH)
      && Dependency(AUTH_PATH, CLIENT_PATH) !in deps
      && Dependency(CLIENT_PATH, AUTH_PATH) !in deps
  {
    var deps := Analysis.Analyze(BreakCircularResult(files), parser).dependencies;
    forall d | d in deps && d.from == AUTH_PATH ensures d.to == TOKEN_PROVIDER_PATH {
      AuthEdgeToProvider(files, parser, d);
    }
    forall d | d in deps && d.from == CLIENT_PATH ensures d.to == TOKEN_PROVIDER_PATH {
      ClientEdgeToProvider(files, parser, d);
    }
    assert |CLIENT_PATH| != |TOKEN_PROVIDER_PATH| && |AUTH_PATH| != |TOKEN_PROVIDER_PATH|;
  }

  lemma AuthEdgeToProvider(files: seq<CodeFile>, parser: Analysis.Parser, d: Dependency)
    requires OnlyImportsFrom(Analysis.ParseOrEmpty(parser, AUTH_CONTENT), AUTH_PROVIDER_IMPORT)
    requires AtMostOneRecord(files, AUTH_PATH)
    requires !HasPath(files, TOKEN_PROVIDER_PATH + "x")
    requires d.from == AUTH_PATH && d in Analysis.Analyze(BreakCircularResult(files), parser).dependencies
    ensures d.to == TOKEN_PROVIDER_PATH
  {
    var r := BreakCircularResult(files);
    assert AUTH_PATH != TOKEN_PROVIDER_PATH by { assert |AUTH_PATH| != |TOKEN_PROVIDER_PATH|; }
    BreakCircularPaths(files);
    Analysis.AnalyzeDependencies(r, parser, d);
    ExtendedSnapshotTree(files, r, parser, AUTH_PATH);
    BreakCircularShape(files);
    AuthImportResolves();
    ProviderFound(files, r);
    EdgesToProviderOnly(r, parser, AUTH_PROVIDER_IMPORT, d);
  }

  lemma ClientEdgeToProvider(files: seq<CodeFile>, parser: Analysis.Parser, d: Dependency)
    requires OnlyImportsFrom(Analysis.ParseOrEmpty(parser, CLIENT_CONTENT), CLIENT_PROVIDER_IMPORT)
    requires AtMostOneRecord(files, CLIENT_PATH)
    requires !HasPath(files, TOKEN_PROVIDER_PATH + "x")
    requires d.from == CLIENT_PATH && d in Analysis.Analyze(BreakCircularResult(files), parser).dependencies
    ensures d.to == TOKEN_PROVIDER_PATH
  {
    var r := BreakCircularResult(files);
    assert CLIENT_PATH != TOKEN_PROVIDER_PATH by { assert |CLIENT_PATH| != |TOKEN_PROVIDER_PATH|; }
    BreakCircularPaths(files);
    Analysis.AnalyzeDependencies(r, parser, d);
    ExtendedSnapshotTree(files, r, parser, CLIENT_PATH);
    BreakCircularShape(files);
    assert FindIndex(files, CLIENT_PATH) != FindIndex(files, AUTH_PATH) by {
      assert |AUTH_PATH| != |CLIENT_PATH|;
    }
    ClientImportResolves();
    ProviderFound(files, r);
    EdgesToProviderOnly(r, parser, CLIENT_PROVIDER_IMPORT, d);
  }

  /**
   * With two auth.ts records only the first is rewritten, while the analysis
   * reads the tree of the last one: if that one still imports the client,
   * the auth -> client edge survives the rewrite.
   */
  lemma DuplicateAuthRecordKeepsEdge(first: string, second: string, client: string, parser: Analysis.Parser)
    requires parser(second) == Some(Program([ImportDeclaration("../" + "api" + "/" + "client" + ".ts", [])]))
    ensures var files := [CodeFile(AUTH_PATH, first), CodeFile(AUTH_PATH, second), CodeFile(CLIENT_PATH, client)];
      Dependency(AUTH_PATH, CLIENT_PATH) in Analysis.Analyze(BreakCircularResult(files), parser).dependencies
  {
    var files := [CodeFile(AUTH_PATH, first), CodeFile(AUTH_PATH, second), CodeFile(CLIENT_PATH, client)];
    SecondAuthRecordKept(files);
    EdgeFromLastAuthRecord(BreakCircularResult(files), second, parser);
  }

  /** The analysis reads auth.ts from its last record; if that one imports `../api/client.ts`, the edge is there. */
  lemma EdgeFromLastAuthRecord(r: seq<CodeFile>, second: string, parser: Analysis.Parser)
    requires |r| == 4 && r[1] == CodeFile(AUTH_PATH, second)
    requires r[0].path == AUTH_PATH && r[2].path == CLIENT_PATH && r[3].path == TOKEN_PROVIDER_PATH
    requires parser(second) == Some(Program([ImportDeclaration("../" + "api" + "/" + "client" + ".ts", [])]))
    ensures Dependency(AUTH_PATH, CLIENT_PATH) in Analysis.Analyze(r, parser).dependencies
  {
    assert |AUTH_PATH| != |CLIENT_PATH| && |AUTH_PATH| != |TOKEN_PROVIDER_PATH|;
    Analysis.AstOfLast(r, parser, 1);
    OldAuthImportResolves();
    FindTargetAt(r, CLIENT_PATH, 2);
    var body := Analysis.AstOf(Analysis.Asts(r, parser), AUTH_PATH).body;
    assert ImportTarget(r, AUTH_PATH, body[0]) == Some(CLIENT_PATH);
    Analysis.AnalyzeDependencies(r, parser, Dependency(AUTH_PATH, CLIENT_PATH));
  }

  /** In a snapshot auth.ts, auth.ts, client.ts the rewrite leaves the second record as it was. */
  lemma SecondAuthRecordKept(files: seq<CodeFile>)
    requires |files| == 3 && files[0].path == AUTH_PATH && files[1].path == AUTH_PATH && files[2].path == CLIENT_PATH
    ensures var r := BreakCircularResult(files);
      && |r| == 4 && r[1] == files[1]
      && r[0].path == AUTH_PATH && r[2].path == CLIENT_PATH && r[3].path == TOKEN_PROVIDER_PATH
  {
    BreakCircularPaths(files);
    var w := WithContent(files, AUTH_PATH, AUTH_CONTENT);
    WithContentKeepsRecord(files, AUTH_PATH, AUTH_CONTENT, 1);
    assert AUTH_PATH != CLIENT_PATH by { assert |AUTH_PATH| != |CLIENT_PATH|; }
    WithContentKeepsRecord(w, CLIENT_PATH, CLIENT_CONTENT, 1);
  }

  /** A record that is not the first with the written path keeps its content. */
  lemma WithContentKeepsRecord(files: seq<CodeFile>, path: string, content: string, i: nat)
    requires i < |files|
    requires files[i].path != path || exists j :: 0 <= j < i && files[j].path == path
    ensures WithContent(files, path, content)[i] == files[i]
  {
  }

  /** auth.ts's original import `../api/client.ts` designates client.ts, and no auth.ts record matches it. */
  lemma OldAuthImportResolves()
    ensures ResolvedPath(AUTH_PATH, "../" + "api" + "/" + "client" + ".ts") == CLIENT_PATH
    ensures !Matches(AUTH_PATH, CLIENT_PATH)
  {
    NoDotNoTs("api");
    NoDotNoTs("client");
    ResolveParentImport("src", "services", "auth.ts", "api", "client", ".ts");
    assert |AUTH_PATH| != |CLIENT_PATH| && |AUTH_PATH| != |CLIENT_PATH + "x"|;
  }
}
