/**
 * The snapshot the console opens with (constants.ts, MOCK_FILE_SYSTEM), and
 * what one analysis run reports on it. The contents are the seed's own; the
 * parser is foreign code, so the run is stated for any parser that reads
 * each file as the syntax tree `Seed` writes out for it.
 */
module MockFileSystem {
  import opened Wrappers
  import opened Types
  import opened JsStrings
  import opened ImportResolution
  import opened SymbolTable
  import opened Analysis
  import opened Seed
  import Refactoring

  // ---------------------------------------------------------------------
  // Paths and import specifiers
  // ---------------------------------------------------------------------

  const CLIENT_PATH: string := Refactoring.CLIENT_PATH
  const AUTH_PATH: string := Refactoring.AUTH_PATH
  const FORMATTERS_PATH: string := "src" + "/" + "utils" + "/" + "formatters.ts"
  const USER_PROFILE_PATH: string := "src" + "/" + "components" + "/" + "UserProfile.tsx"
  const SETTINGS_PATH: string := "src" + "/" + "components" + "/" + "Settings.tsx"
  const OLD_UTILS_PATH: string := Refactoring.OLD_UTILS_PATH

  // The specifiers are spelt segment by segment, as the resolution lemmas read them.
  const AUTH_IMPORT: string := "../" + "services" + "/" + "auth" + ".ts"
  const CLIENT_IMPORT: string := "../" + "api" + "/" + "client" + ".ts"
  const FORMATTERS_IMPORT: string := "../" + "utils" + "/" + "formatters" + ".ts"

  // ---------------------------------------------------------------------
  // Contents
  // ---------------------------------------------------------------------

  /** The content of src/api/client.ts. */
  const CLIENT_TS: string :=
    "import { getAuthToken } from '../services/auth.ts';\n"
    + "\n"
    + "export class ApiClient {\n"
    + "    constructor() {\n"
    + "        console.log('API Client initialized');\n"
    + "    }\n"
    + "\n"
    + "    fetchData(endpoint) {\n"
    + "        const token = getAuthToken();\n"
    + "        console.log(`Fetching ${endpoint} with token ${token}`);\n"
    + "        return { success: true };\n"
    + "    }\n"
    + "}\n"

  /** The content of src/services/auth.ts. */
  const AUTH_TS: string :=
    "import { ApiClient } from '../api/client.ts'; // Oh no! Circular dependency\n"
    + "\n"
    + "let authToken = 'secret-token-123';\n"
    + "\n"
    + "export function getAuthToken() {\n"
    + "    // This function creates a tight coupling\n"
    + "    const client = new ApiClient(); \n"
    + "    console.log('Auth service is using the API client...');\n"
    + "    return authToken;\n"
    + "}\n"
    + "\n"
    + "export function setAuthToken(token) {\n"
    + "    authToken = token;\n"
    + "}\n"

  /** The content of src/utils/formatters.ts. */
  const FORMATTERS_TS: string :=
    "\n"
    + "export function formatDate(date) {\n"
    + "    return date.toLocaleDateString('en-US');\n"
    + "}\n"
    + "\n"
    + "export function formatCurrency(amount) {\n"
    + "    return `$${amount.toFixed(2)}`;\n"
    + "}\n"

  /** The content of src/components/UserProfile.tsx. */
  const USER_PROFILE_TSX: string :=
    "import { ApiClient } from '../api/client.ts';\n"
    + "import { formatDate } from '../utils/formatters.ts';\n"
    + "\n"
    + "export const UserProfile = ({ userId }) => {\n"
    + "    const client = new ApiClient();\n"
    + "    const user = client.fetchData(`/users/${userId}`);\n"
    + "    const joinDate = new Date();\n"
    + "\n"
    + "    return (\n"
    + "        '<div>' +\n"
    + "        '<h2>User Profile</h2>' +\n"
    + "        '<p>Joined on: ' + formatDate(joinDate) + '</p>' +\n"
    + "        '</div>'\n"
    + "    );\n"
    + "};\n"

  /** The content of src/components/Settings.tsx. */
  const SETTINGS_TSX: string :=
    "import { ApiClient } from '../api/client.ts';\n"
    + "import { formatCurrency } from '../utils/formatters.ts';\n"
    + "\n"
    + "export const Settings = () => {\n"
    + "    const client = new ApiClient();\n"
    + "    const settings = client.fetchData('/settings');\n"
    + "    const balance = 123.45;\n"
    + "\n"
    + "    return (\n"
    + "        '<div>' +\n"
    + "        '<h2>Settings</h2>' +\n"
    + "        '<p>Balance: ' + formatCurrency(balance) + '</p>' +\n"
    + "        '</div>'\n"
    + "    );\n"
    + "};\n"

  /** The content of src/legacy/old-utils.ts. */
  const OLD_UTILS_TS: string :=
    "// This file contains deprecated functions.\n"
    + "\n"
    + "export function oldUnusedFunction() {\n"
    + "    console.log(\"I am never called.\");\n"
    + "    return true;\n"
    + "}\n"
    + "\n"
    + "export function anotherOldOne() {\n"
    + "    return 'still here';\n"
    + "}\n"
  /** MOCK_FILE_SYSTEM: the six records, in the order the console lists them. */
  const MOCK_FILE_SYSTEM: seq<CodeFile> := [
    CodeFile(CLIENT_PATH, CLIENT_TS), CodeFile(AUTH_PATH, AUTH_TS), CodeFile(FORMATTERS_PATH, FORMATTERS_TS),
    CodeFile(USER_PROFILE_PATH, USER_PROFILE_TSX), CodeFile(SETTINGS_PATH, SETTINGS_TSX), CodeFile(OLD_UTILS_PATH, OLD_UTILS_TS)]

  /** The snapshot's paths, specifiers and declared names. */
  const SEED: SeedLayout := SeedLayout(
    CLIENT_PATH, AUTH_PATH, FORMATTERS_PATH, USER_PROFILE_PATH, SETTINGS_PATH, OLD_UTILS_PATH,
    AUTH_IMPORT, CLIENT_IMPORT, FORMATTERS_IMPORT,
    "getAuthToken", "setAuthToken", "ApiClient", "formatDate", "formatCurrency",
    "UserProfile", "Settings", "oldUnusedFunction", "anotherOldOne")

  // ---------------------------------------------------------------------
  // The run
  // ---------------------------------------------------------------------

  /**
   * One analysis run on MOCK_FILE_SYSTEM, for a parser that reads each file
   * as its tree: the six import edges, the one cycle client.ts -> auth.ts,
   * ApiClient used three times, five dead exports and three dead files.
   */
  lemma MockFileSystemAnalysis(parser: Parser)
    requires parser(CLIENT_TS) == Some(ClientTree(SEED))
    requires parser(AUTH_TS) == Some(AuthTree(SEED))
    requires parser(FORMATTERS_TS) == Some(FormattersTree(SEED))
    requires parser(USER_PROFILE_TSX) == Some(ComponentTree(SEED, "formatDate", "UserProfile"))
    requires parser(SETTINGS_TSX) == Some(ComponentTree(SEED, "formatCurrency", "Settings"))
    requires parser(OLD_UTILS_TS) == Some(OldUtilsTree(SEED))
    ensures var r := Analyze(MOCK_FILE_SYSTEM, parser);
      && r.dependencies == [
           Dependency(CLIENT_PATH, AUTH_PATH), Dependency(AUTH_PATH, CLIENT_PATH),
           Dependency(USER_PROFILE_PATH, CLIENT_PATH), Dependency(USER_PROFILE_PATH, FORMATTERS_PATH),
           Dependency(SETTINGS_PATH, CLIENT_PATH), Dependency(SETTINGS_PATH, FORMATTERS_PATH)]
      && r.circularDependencyFiles == [[CLIENT_PATH, AUTH_PATH]]
      && r.circularDependencies == [["client.ts", "auth.ts"]]
      && UsagesAfter(MOCK_FILE_SYSTEM, parser)
           == map[Key(AUTH_PATH, "getAuthToken") := 1, Key(CLIENT_PATH, "ApiClient") := 3,
                  Key(FORMATTERS_PATH, "formatDate") := 1, Key(FORMATTERS_PATH, "formatCurrency") := 1]
      && r.deadCodeSymbols == [
           DeadSymbol(AUTH_PATH, "setAuthToken"), DeadSymbol(USER_PROFILE_PATH, "UserProfile"),
           DeadSymbol(SETTINGS_PATH, "Settings"), DeadSymbol(OLD_UTILS_PATH, "oldUnusedFunction"),
           DeadSymbol(OLD_UTILS_PATH, "anotherOldOne")]
      && r.deadCodeFiles == [USER_PROFILE_PATH, SETTINGS_PATH, OLD_UTILS_PATH]
  {
    SeedWellPlaced();
    MockSnapshot(parser);
    SeedRun(MOCK_FILE_SYSTEM, SEED, parser);
    SeedFileNames();
  }

  /** The records are the seed's paths in order, and the parser reads each as its tree. */
  lemma MockSnapshot(parser: Parser)
    requires parser(CLIENT_TS) == Some(ClientTree(SEED))
    requires parser(AUTH_TS) == Some(AuthTree(SEED))
    requires parser(FORMATTERS_TS) == Some(FormattersTree(SEED))
    requires parser(USER_PROFILE_TSX) == Some(ComponentTree(SEED, "formatDate", "UserProfile"))
    requires parser(SETTINGS_TSX) == Some(ComponentTree(SEED, "formatCurrency", "Settings"))
    requires parser(OLD_UTILS_TS) == Some(OldUtilsTree(SEED))
    ensures SeedSnapshot(MOCK_FILE_SYSTEM, SEED, parser)
  {
  }

  /** The two files of the cycle are reported by their base names. */
  lemma SeedFileNames()
    ensures FileNames([[CLIENT_PATH, AUTH_PATH]]) == [["client.ts", "auth.ts"]]
  {
    var names := FileNames([[CLIENT_PATH, AUTH_PATH]]);
    FileNameOfNested("src", "api", "client.ts");
    FileNameOfNested("src", "services", "auth.ts");
    assert names[0][0] == "client.ts" && names[0][1] == "auth.ts";
    assert names[0] == ["client.ts", "auth.ts"];
  }

  /** The base name of `dir/sub/file` is `file`. */
  lemma FileNameOfNested(dir: string, sub: string, file: string)
    requires '/' !in dir && '/' !in sub && '/' !in file && file != ""
    ensures GetFileName(dir + "/" + sub + "/" + file) == file
  {
    var p := dir + "/" + sub + "/" + file;
    var k := |dir| + 1 + |sub|;
    assert p[k] == '/';
    forall j | k < j < |p| ensures p[j] != '/' {
      assert p[j] == file[j - k - 1];
    }
    LastIndexOfAt(p, '/', k);
    assert p[k + 1..] == file;
  }

  // ---------------------------------------------------------------------
  // The seed is laid out as the run needs
  // ---------------------------------------------------------------------

  lemma SeedWellPlaced()
    ensures WellPlaced(SEED)
  {
    SeedPathsDiffer();
    SeedNamesDiffer();
    SeedResolves();
  }

  lemma SeedPathsDiffer()
    ensures DistinctPaths(SEED)
  {
    assert FORMATTERS_PATH[4] != OLD_UTILS_PATH[4];
  }

  lemma SeedNamesDiffer()
    ensures DistinctNames(SEED)
  {
    SeedNamesNonEmpty();
    SeedNamesColonFree();
    SeedNamesUnlike();
  }

  lemma SeedNamesNonEmpty()
    ensures NamesNonEmpty(SEED)
  {
  }

  lemma SeedNamesColonFree()
    ensures NamesColonFree(SEED)
  {
    ImportedNamesColonFree();
    OtherNamesColonFree();
  }

  lemma ImportedNamesColonFree()
    ensures ':' !in "getAuthToken" && ':' !in "ApiClient" && ':' !in "formatDate" && ':' !in "formatCurrency"
  {
  }

  lemma OtherNamesColonFree()
    ensures ':' !in "setAuthToken" && ':' !in "UserProfile" && ':' !in "Settings"
    ensures ':' !in "oldUnusedFunction" && ':' !in "anotherOldOne"
  {
  }

  lemma SeedNamesUnlike()
    ensures NamesDiffer(SEED)
  {
    assert "getAuthToken"[0] != "setAuthToken"[0];
  }

  lemma SeedResolves()
    ensures Resolves(SEED)
  {
    ClientImportResolves();
    AuthImportResolves();
    ComponentClientImport("UserProfile.tsx");
    ComponentClientImport("Settings.tsx");
    ComponentFormattersImport("UserProfile.tsx");
    ComponentFormattersImport("Settings.tsx");
  }

  /** client.ts imports '../services/auth.ts'. */
  lemma ClientImportResolves()
    ensures ResolvedPath(CLIENT_PATH, AUTH_IMPORT) == AUTH_PATH
  {
    NoDotNoTs("services");
    NoDotNoTs("auth");
    ResolveParentImport("src", "api", "client.ts", "services", "auth", ".ts");
    assert "auth" + ".ts" == "auth.ts";
  }

  /** auth.ts imports '../api/client.ts'. */
  lemma AuthImportResolves()
    ensures ResolvedPath(AUTH_PATH, CLIENT_IMPORT) == CLIENT_PATH
  {
    NoDotNoTs("api");
    NoDotNoTs("client");
    ResolveParentImport("src", "services", "auth.ts", "api", "client", ".ts");
    assert "client" + ".ts" == "client.ts";
  }

  /** A component imports '../api/client.ts'. */
  lemma ComponentClientImport(file: string)
    requires file == "UserProfile.tsx" || file == "Settings.tsx"
    ensures ResolvedPath("src" + "/" + "components" + "/" + file, CLIENT_IMPORT) == CLIENT_PATH
  {
    NoDotNoTs("api");
    NoDotNoTs("client");
    ResolveParentImport("src", "components", file, "api", "client", ".ts");
    assert "client" + ".ts" == "client.ts";
  }

  /** A component imports '../utils/formatters.ts'. */
  lemma ComponentFormattersImport(file: string)
    requires file == "UserProfile.tsx" || file == "Settings.tsx"
    ensures ResolvedPath("src" + "/" + "components" + "/" + file, FORMATTERS_IMPORT) == FORMATTERS_PATH
  {
    NoDotNoTs("utils");
    NoDotNoTs("formatters");
    ResolveParentImport("src", "components", file, "utils", "formatters", ".ts");
    assert "formatters" + ".ts" == "formatters.ts";
  }
}
