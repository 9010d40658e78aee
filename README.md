# Aetherium Genesis Console — a verified model of its core

This project models, in Dafny, the deterministic core of the Aetherium
Genesis Console and its brain service, and proves properties of that model.

- **The code analysis engine** (`services/analysisEngine.ts`). It takes a
  snapshot of `{path, content}` records and builds four things:
  - the exported top-level symbols of each file;
  - the relative-import edges between files, resolved segment by segment;
  - a usage count per `path::name` key;
  - the dead symbols, dead files and import cycles.

  The engine is a class whose tables (`dependencies`, `symbols`, `usages`)
  the methods fill in place. The cycle search is a depth-first search with an
  on-path set, modelled both as a class over mutable sets and as the pure
  function it computes.
- **The scripted refactorings** (`services/refactoringEngine.ts`). They
  rewrite the snapshot for the two hard-coded task ids: breaking the
  `auth.ts` ↔ `client.ts` cycle through a new `tokenProvider.ts`, and
  blanking the legacy `old-utils.ts`.
- **The Aether bus** (`services/aetherBus.ts`):
  - a validation gate per event type;
  - the projection of raw payloads into context-free intent vectors;
  - the 32-bit canonical hash (`hash = (hash << 5) - hash + c`, truncated to 32 bits);
  - a subscriber registry with publish, subscribe and unsubscribe.
- **The brain service**:
  - the PRGX sentry, alchemist and diplomat (`packages/brain/identity.py`);
  - the SATI state holder (`packages/brain/sati.py`);
  - the Uposatha forgetting ritual over the memory vault
    (`packages/brain/rituals/uposatha.py`).

Modules and files:

| file | module | what it holds |
|---|---|---|
| wrappers.dfy | Wrappers | `Option` |
| types.dfy | Types | `CodeFile`, `CodeSymbol`, `Dependency`, `DeadSymbol`, `AnalysisResult`, `Paths`, `HasPath` |
| estree.dfy | Estree | the top-level ESTree import/export node shapes the engine inspects (ECMA-262 sections 16.2.2 Imports and 16.2.3 Exports) |
| js_strings.dfy | JsStrings | JavaScript `split`, `join`, `lastIndexOf`, `substring`, the `/\.ts(x)?/` replace, and the default `sort` of string arrays |
| import_resolution.dfy | ImportResolution | path-segment resolution and first-match target lookup |
| symbol_table.dfy | SymbolTable | exported symbols, imported names, usage counting, dead symbols and dead files |
| cycle_detection.dfy | CycleDetection | the cycle-finding depth-first search |
| analysis_engine.dfy | Analysis | class `AnalysisEngine` and the function `Analyze` it is proved against |
| seed.dfy | Seed | one analysis run on any snapshot laid out like the seed, worked out pass by pass |
| mock_file_system.dfy | MockFileSystem | the seed snapshot `MOCK_FILE_SYSTEM` (constants.ts) and its analysis |
| refactoring_engine.dfy | Refactoring | `RefactoringEngine.execute` and the two rewrites |
| aether_bus.dfy | Aether | validation, intent vectors, canonical hash, class `AetherBus` |
| identity.dfy | Identity | sentry, alchemist, diplomat |
| sati.dfy | Mindfulness | class `Sati` |
| uposatha.dfy | Uposatha | class `UposathaCleaner` |

The acorn parser is foreign code, so it is a parameter: a function from file
content to an optional program. A failed parse becomes an empty body, as in
the source.

## Model

| member | source | states |
|---|---|---|
| Analysis.AnalysisEngine.constructor | services/analysisEngine.ts:7-15 | The engine keeps the snapshot, and its dependency, symbol and usage tables start empty. |
| Analysis.AnalysisEngine.RunFullAnalysis | services/analysisEngine.ts:17-32 | The result is `Analyze(files, parser)`, a function of the snapshot alone. The state is reset first, so two runs on the same engine return equal results. The engine's tables afterwards are the ones reported. |
| Analysis.AnalysisEngine.Reset | services/analysisEngine.ts:34-38 | All three tables are empty afterwards. |
| Analysis.AnalysisEngine.ParseAllFiles | services/analysisEngine.ts:40-79 | Symbols, order, edges and usage counts are the old tables extended by the symbol, edge and counting passes over every snapshot file. |
| Analysis.AnalysisEngine.ParseAsts | services/analysisEngine.ts:41-50 | Every snapshot path maps to its parse; a failed parse maps to an empty body (a later duplicate path overwrites an earlier one). |
| Analysis.AstsCoverFiles | services/analysisEngine.ts:41-50 | A path has a syntax tree exactly when it is a snapshot path. |
| Analysis.AnalysisEngine.CollectSymbolsAndDependencies | services/analysisEngine.ts:52-59 | Pass 1: each file's symbols are stored under its path and its edges are appended; the usage counts do not change. |
| Analysis.AnalysisEngine.CountUsages | services/analysisEngine.ts:61-78 | Pass 2: the counts become the old counts charged with every imported name of every file, in snapshot order; the other tables do not change. |
| Analysis.AnalysisEngine.ChargeNames | services/analysisEngine.ts:66-76 | Each name adds one to the key of its first exporting file, or nothing when no file exports it. |
| SymbolTable.CountNamesCounts | services/analysisEngine.ts:66-76 | Each count rises by the number of names charged to that key. A key is present afterwards exactly when it was before or some name was charged to it. |
| SymbolTable.FirstExporter | services/analysisEngine.ts:67-70 | The file charged for a name is a snapshot file. When there is none, no snapshot file exports that name. |
| SymbolTable.ChargedToFirstExporter | services/analysisEngine.ts:67-74 | A name charged to `path::name` is that very name, and `path` is a snapshot file exporting it. |
| SymbolTable.ShadowedExportNeverCharged | services/analysisEngine.ts:67-74 | A file exporting a name that an earlier file with a different path also exports is never charged for that name, whatever file the import resolved to. |
| SymbolTable.KeyInjective | services/analysisEngine.ts:73 | With names free of `:`, the key `path::name` determines both the path and the name. |
| Analysis.AnalyzeUsages | services/analysisEngine.ts:62-78 | A usage key exists exactly when some imported name is charged to it, and then its count is at least 1. |
| Analysis.AnalysisEngine.ParseSymbols | services/analysisEngine.ts:81-107 | The symbols are `SymbolsOf(body)`. |
| SymbolTable.SymbolsOf | services/analysisEngine.ts:81-107 | Every symbol is exported and has a non-empty name, and there are at most as many symbols as top-level nodes. |
| SymbolTable.SymbolsOfIff | services/analysisEngine.ts:85-105 | A symbol is listed exactly when one top-level export wraps a function or class with that name, or a variable declaration whose first declarator is that identifier. |
| SymbolTable.NoExportsNoSymbols | services/analysisEngine.ts:85-105 | A body without export declarations yields no symbols. |
| Analysis.AnalyzeSymbols | services/analysisEngine.ts:52-59 | The symbol table has an entry exactly for the snapshot paths, each listed once in order and holding what that path's tree exports. |
| Analysis.AnalysisEngine.ParseDependencies | services/analysisEngine.ts:109-139 | The edges are `DependenciesOf(files, filePath, body)`. |
| Analysis.AnalysisEngine.ImportEdge | services/analysisEngine.ts:115-136 | One node gives one edge exactly when it is an import with a non-empty source that resolves to a snapshot file. |
| Analysis.AnalysisEngine.ResolveSegments | services/analysisEngine.ts:120-129 | The loop over the import segments computes `ApplySegments`. |
| ImportResolution.BasePath | services/analysisEngine.ts:113 | The base directory is everything before the last `/`, or `""` when the path has no `/`. |
| ImportResolution.FindTarget | services/analysisEngine.ts:132 | A found target is a snapshot path. When none is found, no snapshot path equals the resolved path or the resolved path plus `x`. |
| ImportResolution.DependenciesOfEdges | services/analysisEngine.ts:109-139 | Every edge leaves `filePath` and ends at a snapshot file, and there is at most one edge per node. |
| ImportResolution.DependenciesOfIff | services/analysisEngine.ts:115-137 | An edge is produced exactly when some node of the body is an import whose target is that edge's end. |
| ImportResolution.ApplySegmentsAppend | services/analysisEngine.ts:123-129 | Resolving a concatenation of segment lists is resolving one list after the other. |
| ImportResolution.ApplyPlainSegments | services/analysisEngine.ts:123-129 | Segments other than `.` and `..` are appended unchanged. |
| ImportResolution.DotDotAtRoot | services/analysisEngine.ts:124-125 | A `..` on an empty segment list does nothing. |
| ImportResolution.ResolveSiblingImport | services/analysisEngine.ts:113-130 | `./name.ts` and `./name.tsx` resolve to `name.ts` in the importer's own directory. |
| ImportResolution.ResolveParentImport | services/analysisEngine.ts:113-130 | `../pkg/name.ts(x)` from `dir/sub/file` resolves to `dir/pkg/name.ts`, for example `../api/client.ts` from `src/components/Settings.tsx`. |
| ImportResolution.ResolveFromTopLevelFile | services/analysisEngine.ts:113-130 | An importer whose path has no `/` gets the base `""`, so a sibling import `./name` resolves to `/name.ts` with a leading `/` (`./util` from `main.ts` gives `/util.ts`). |
| JsStrings.StripTrailingExtension | services/analysisEngine.ts:117 | The first-occurrence strip of `.ts` or `.tsx` removes a trailing extension when the stem holds no `.ts`. |
| JsStrings.StripWithoutTs | services/analysisEngine.ts:117 | A specifier without `.ts` is left unchanged. |
| JsStrings.JoinSplit | services/analysisEngine.ts:120-130 | Joining the pieces of a split gives back the string. |
| JsStrings.SplitJoin | services/analysisEngine.ts:120-130 | Splitting a join of separator-free pieces gives back the pieces. |
| Analysis.AnalyzeDependencies | services/analysisEngine.ts:52-59 | An edge `from -> to` is reported exactly when snapshot file `from` has an import that resolves to `to`, and `to` is a snapshot file. |
| Analysis.DepsLeaveFiles | services/analysisEngine.ts:52-59 | Every reported edge leaves a snapshot file. |
| Analysis.AnalysisEngine.GetImportedSymbols | services/analysisEngine.ts:141-155 | The names are `ImportedNames(body)`. |
| Analysis.AnalysisEngine.ImportSpecifierNames | services/analysisEngine.ts:147-151 | The inner loop over one import's specifiers collects `SpecifierNames(specs)`: the imported names of the named specifiers, in order, with default and namespace specifiers skipped. |
| SymbolTable.ImportedNamesIff | services/analysisEngine.ts:141-155 | A name is listed exactly when some import declaration has a named specifier with that imported name. Default and namespace specifiers and local aliases never count. |
| Analysis.AnalysisEngine.FindDeadCode | services/analysisEngine.ts:157-178 | The dead symbols are `DeadSymbols` of the tables, and the dead files are `DeadFiles` of those. |
| Analysis.AnalysisEngine.DeadSymbolsOfFile | services/analysisEngine.ts:159-168 | One file's dead symbols are its exported symbols whose key has no usage. |
| SymbolTable.DeadSymbolsIff | services/analysisEngine.ts:157-168 | A pair is dead exactly when its path is in the table, the path exports the name, and `path::name` has no usage. |
| SymbolTable.DeadFiles | services/analysisEngine.ts:170-174 | Every listed file is a snapshot file that has symbols, all of them dead. |
| SymbolTable.DeadFilesComplete | services/analysisEngine.ts:170-174 | Every such snapshot file is listed. |
| SymbolTable.DeadFileIffUnused | services/analysisEngine.ts:170-174 | A file is dead exactly when it has symbols and none of their keys has a usage, so a file with no symbols is never dead. |
| Analysis.AnalyzeDeadSymbols | services/analysisEngine.ts:157-168 | Export `n` of `p` is dead exactly when not both: some file imports `n` by name and `p` is the first snapshot file exporting `n`. |
| Analysis.AnalyzeDeadFiles | services/analysisEngine.ts:170-174 | A snapshot file is dead exactly when it exports something and none of its exports has a usage. |
| Analysis.AnalysisEngine.FindCircularDependencies | services/analysisEngine.ts:180-221 | The full cycles are `CyclesOf(files, dependencies)`, and the short cycles are their file names. |
| CycleDetection.CycleSearch.Dfs | services/analysisEngine.ts:193-210 | The recursive search from a node leaves exactly the state `Visit` specifies. |
| CycleDetection.CycleSearch.SearchAll | services/analysisEngine.ts:212-216 | Searching from every unvisited root gives the state `SearchFrom` specifies. |
| CycleDetection.BackEdgeCycle | services/analysisEngine.ts:198-199 | The path slice from a neighbour on the current path is a simple cycle. |
| CycleDetection.RecordOk | services/analysisEngine.ts:200-203 | Recording a cycle keeps the recorded cycles simple and pairwise distinct as vertex multisets, and never removes one. |
| CycleDetection.VisitLemma | services/analysisEngine.ts:193-210 | A visit keeps the search invariant, only grows the visited set and the cycle list, and finishes the node. |
| CycleDetection.SearchFromLemma | services/analysisEngine.ts:212-216 | The outer loop keeps the invariant and leaves every root visited. |
| CycleDetection.IndexOf | services/analysisEngine.ts:199 | `indexOf` gives the first position of a present element, and -1 otherwise. |
| CycleDetection.FindCyclesSound | services/analysisEngine.ts:189-216 | Every reported cycle is a simple cycle of the graph, and no two have equal vertex multisets. |
| CycleDetection.FindCyclesComplete | services/analysisEngine.ts:189-216 | When every vertex is a root, no cycle is reported exactly when the graph has no closed walk. |
| JsStrings.SortStringsSpec | services/analysisEngine.ts:200-201 | Sorting gives a sorted permutation. |
| JsStrings.SortStringsEqIff | services/analysisEngine.ts:200-201 | Two lists have equal sorted forms exactly when they hold the same multiset. |
| Analysis.AnalyzeCycles | services/analysisEngine.ts:180-221 | Each reported cycle is a non-empty list of distinct paths in which consecutive files and the last-to-first pair are import edges. No two reported cycles are over the same files. `circularDependencies` holds the file names of `circularDependencyFiles`. No cycle is reported exactly when the graph has no closed walk. |
| Analysis.GetFileName | services/analysisEngine.ts:223-225 | The file name is the text after the last `/`, or the whole path when that text is empty. |
| JsStrings.LastPieceOfSplit | services/analysisEngine.ts:224 | The last piece of a split is the text after the last separator. |
| JsStrings.LastIndexOf | services/analysisEngine.ts:113 | The result is -1 or a position of the character, with no occurrence after it. |
| Seed.SeedRun | services/analysisEngine.ts:17-32 | For any six records laid out like the seed and read by the parser as the seed's trees, one run reports the six import edges in file and statement order and the single cycle client → auth. It charges ApiClient three times and getAuthToken and each formatter once, and lists the symbols in snapshot order. The five never-imported exports are dead, and the two components and the legacy module are dead files. |
| MockFileSystem.SeedWellPlaced | constants.ts:4-104 | The seed's six paths are distinct and its declared names are distinct identifiers. Every relative import in it resolves to the file it names. |
| MockFileSystem.FileNameOfNested | services/analysisEngine.ts:223-225 | The file name of `dir/sub/file` is `file`. |
| MockFileSystem.MockFileSystemAnalysis | constants.ts:4-104 | On MOCK_FILE_SYSTEM, for a parser that reads each file as its tree, the run reports six edges: client ↔ auth, and each component → client and → formatters. The one cycle is `[client.ts, auth.ts]`, and ApiClient is used three times. setAuthToken, UserProfile, Settings, oldUnusedFunction and anotherOldOne are dead, and UserProfile.tsx, Settings.tsx and old-utils.ts are dead files. |
| Refactoring.Execute | services/refactoringEngine.ts:5-14 | The result is `ExecuteResult`. Dispatch is on the task id, and any other id returns the snapshot unchanged. |
| Refactoring.BreakCircularDependencyAuthClient | services/refactoringEngine.ts:16-76 | The array copy, the two finds, the in-place content updates, the filter, the write-back and the append compute `BreakCircularResult`. |
| Refactoring.RewriteAuthAndClient | services/refactoringEngine.ts:17-64 | The copied array holds the snapshot with the first `auth.ts` and the first `client.ts` given their new content. The returned index is the first `auth.ts` position. |
| Refactoring.KeepAuthKeepsAll | services/refactoringEngine.ts:67 | When `auth.ts` was found or is absent, the filter keeps every record. |
| Refactoring.BreakCircularShape | services/refactoringEngine.ts:16-76 | The output is one longer: the input paths in order, then `src/services/tokenProvider.ts`. Only the first `auth.ts` and the first `client.ts` get new content; every other record keeps its content. |
| Refactoring.BreakCircularAddsOneProvider | services/refactoringEngine.ts:75 | The multiset of paths gains exactly one provider path. |
| Refactoring.BreakCircularTwice | services/refactoringEngine.ts:75 | Running the task twice adds two provider records, since nothing checks for duplicates. |
| Refactoring.RewrittenImportsReachProvider | services/refactoringEngine.ts:38-50 | Resolved by the analysis engine, the new imports of `auth.ts` and `client.ts` both point to the provider module. |
| Refactoring.RewriteBreaksAuthClientCycle | services/refactoringEngine.ts:37-75 | If parsing the new auth.ts and client.ts yields no import besides the provider import, and each path has at most one record, then in the analysed result every edge leaving `auth.ts` or `client.ts` ends at the provider. Neither the auth -> client edge nor the client -> auth edge remains. |
| Refactoring.DuplicateAuthRecordKeepsEdge | services/refactoringEngine.ts:19-47 | With two `auth.ts` records, only the first is rewritten. The analysis reads the last one, so if that one still imports `../api/client.ts`, the auth -> client edge remains. |
| Refactoring.AuthImportResolves | services/refactoringEngine.ts:38 | `./tokenProvider.ts` from `src/services/auth.ts` resolves to `src/services/tokenProvider.ts`. |
| Refactoring.ClientImportResolves | services/refactoringEngine.ts:50 | `../services/tokenProvider.ts` from `src/api/client.ts` resolves to `src/services/tokenProvider.ts`. |
| Refactoring.RemoveDeadCodeOldUtils | services/refactoringEngine.ts:78-99 | The copy-and-update computes `RemoveDeadCodeResult`. |
| Refactoring.RemoveDeadCodeEffect | services/refactoringEngine.ts:78-99 | The paths are kept in order. Only the first `src/legacy/old-utils.ts` gets new content; without it the snapshot is unchanged. The rewrite is idempotent. |
| Refactoring.FindIndex | services/refactoringEngine.ts:19-20 | `find` gives the first record with the path, or none exactly when no record has it. |
| Refactoring.Find | services/refactoringEngine.ts:69 | `findIndex` over the array is `FindIndex` of its contents. |
| Refactoring.WithContent | services/refactoringEngine.ts:37-47 | Updating the found record changes only the first record with the path, and keeps length and paths. |
| Refactoring.WithContentIdempotent | services/refactoringEngine.ts:82-97 | Applying the same content update twice equals applying it once. |
| Aether.CanonicalHash | services/aetherBus.ts:4-13 | The loop computes `hash-` followed by the hexadecimal text of the 32-bit truncation of the base-31 polynomial of the code units. |
| Aether.HashFoldIsPoly | services/aetherBus.ts:7-11 | Truncating after every step equals truncating the whole polynomial once. |
| Aether.HashStepIsMul31 | services/aetherBus.ts:9-10 | `((h << 5) - h) + c`, truncated to 32 bits, is `31*h + c` truncated to 32 bits. |
| Aether.HashFold | services/aetherBus.ts:6-11 | The hash is always a signed 32-bit integer. |
| Aether.ToInt32 | services/aetherBus.ts:10 | `x \| 0` is a signed 32-bit integer congruent to `x` modulo 2^32. |
| Aether.Hex | services/aetherBus.ts:12 | The hex text is non-empty, uses lower-case hexadecimal digits, and has no leading zero. |
| Aether.HexRoundTrip | services/aetherBus.ts:12 | The hexadecimal text decodes back to the number. |
| Aether.SignedHexRoundTrip | services/aetherBus.ts:12 | Signed hex text (with a `-` for negatives) decodes back to the number. |
| Aether.HashTextInjective | services/aetherBus.ts:12 | Different hash values give different hash texts. |
| Aether.UnruledEventsPass | services/aetherBus.ts:55-61 | Signal events and event types without a rule always pass validation. |
| Aether.ValidPayloadWellFormedVector | services/aetherBus.ts:31-63 | Behind the gate, the vector's members have the shapes validation checked: string `targetId`, string-array `filesInvolved`, file-record `newFirmaState`, non-negative `nodeSize`. |
| Aether.CreateIntentVector | services/aetherBus.ts:70-116 | Every vector is an object whose first two members are `intent` and `targetId`. |
| Aether.VectorFields | services/aetherBus.ts:75-114 | A vector's `intent` and `targetId` read back, and every other key reads from the remaining members. |
| Aether.ExecuteVectorKeepsTask | services/aetherBus.ts:73-80 | An execution vector has exactly the keys intent, targetId, protocolType and filesInvolved, copied from the task's id, type and files. |
| Aether.SimulateVectorKeepsTask | services/aetherBus.ts:81-86 | A simulation vector keeps only the task id and file list. |
| Aether.CompletionVectorKeepsSnapshot | services/aetherBus.ts:87-93 | A completion vector carries the completed task id and the new files. |
| Aether.NodeSelectionRule | services/aetherBus.ts:49-54 | A node selection passes the gate exactly when the payload is truthy with string `path` and `content`, and its vector is `VIEW_NODE` with the path and the content's length. |
| Aether.NodeVectorDropsContent | services/aetherBus.ts:94-102 | For any payload whose content is a string, the node vector has the keys intent, targetId and nodeSize, with the path and the content length. Payloads equal in path and content length give the same vector. |
| Aether.PayloadFreeVectors | services/aetherBus.ts:103-114 | Signals and unknown events give a vector independent of the payload; unknown ones give `UNKNOWN`/`NULL`. |
| Aether.AetherBus.Publish | services/aetherBus.ts:119-148 | An invalid payload delivers nothing. A valid one delivers the same envelope (event type, intent vector, time, hash of the vector) once to each subscriber of the event type, in order. The registry is unchanged. |
| Aether.Deliveries | services/aetherBus.ts:138-147 | There is one delivery per subscriber, in subscriber order, each carrying the envelope. |
| Aether.DeliveredOncePerSubscriber | services/aetherBus.ts:138-147 | With a duplicate-free registry, each callback is called once if subscribed and never otherwise. |
| Aether.AetherBus.Subscribe | services/aetherBus.ts:150-162 | The callback is added to the event type's set, creating it if needed. Nothing is delivered. The returned handle names the event type and callback. |
| Aether.AetherBus.Unsubscribe | services/aetherBus.ts:158-161 | The callback is removed from its event type's set; other event types are untouched. |
| Aether.AddCallback | services/aetherBus.ts:155 | `Set.add` keeps the set duplicate-free and adds exactly the callback. |
| Aether.DeleteCallback | services/aetherBus.ts:159 | `Set.delete` removes exactly the callback and keeps the set duplicate-free. |
| Aether.AddCallbackIdempotent | services/aetherBus.ts:155 | Adding a callback twice equals adding it once. |
| Aether.DeleteUndoesAdd | services/aetherBus.ts:150-162 | Unsubscribing right after subscribing a new callback restores the set. |
| Identity.Inspect | packages/brain/identity.py:12-23 | The result is a TypeError exactly when the vector is truthy and the score is present but not a number. |
| Identity.InspectOutcomes | packages/brain/identity.py:12-23 | A payload without a truthy vector gets `MISSING_VECTOR`. Otherwise it is `PARAJIKA` exactly when the score (0 when absent) is below -0.9, and `CLEAN` exactly when it is not. |
| Identity.InspectContractCases | packages/brain/tests/test_contracts.py:34-42 | The three sentry cases of the contract test give `MISSING_VECTOR`, `PARAJIKA` and `CLEAN`. |
| Identity.ToneStyle | packages/brain/identity.py:38-50 | FOCUSED, WARNING and WAKING select white beams, red noise and cyan rings; every other tone selects calm blue waves. |
| Identity.Transmute | packages/brain/identity.py:31-66 | The parameters copy the vector, score and tone. The shader takes the intensity and the tone's style, with ritual `normal` and timestamp `NOW`. |
| Identity.ColorIdentifiesToneClass | packages/brain/identity.py:38-60 | Two vibes get the same colour exactly when their tones are in the same class, and then the same ripple. |
| Identity.Negotiate | packages/brain/identity.py:74-80 | The reply is always a DIPLOMACY action with the `static_noise` fallback. |
| Identity.NegotiateIgnoresReason | packages/brain/identity.py:74-80 | The reply does not depend on the error reason. |
| Mindfulness.Sati.constructor | packages/brain/sati.py:12-18 | A neutral vibe of score 0 and intensity 0, and an empty intent vector. |
| Mindfulness.Sati.Observe | packages/brain/sati.py:20-30 | The vibe becomes (score, tone, \|score\|) and is returned; its intensity is never negative. The intent vector is untouched. |
| Mindfulness.Sati.EncodeIntent | packages/brain/sati.py:32-40 | The vector is `IntentVectorOf(text)`, and it is also the remembered last vector. The vibe is untouched. |
| Mindfulness.IntentVectorOf | packages/brain/sati.py:38 | One entry per character of the first ten, each `ord(c) % 100 / 100`. |
| Mindfulness.Fraction | packages/brain/sati.py:38 | Every entry lies in [0, 0.99]. |
| Mindfulness.Prefix | packages/brain/sati.py:38 | `text[:10]` is a prefix of length min(\|text\|, 10). |
| Mindfulness.IntentVectorSeesOnlyPrefix | packages/brain/sati.py:38 | Texts that agree on their first ten characters encode alike. |
| Uposatha.UposathaCleaner.constructor | packages/brain/rituals/uposatha.py:27-30 | The retention period is 15 days and the usage threshold is 3. A vault whose ids are unique is a valid cleaner. |
| Uposatha.UposathaCleaner.Judge | packages/brain/rituals/uposatha.py:47-67 | The loop marks exactly `MarkedIds`: the ids of gems older than the retention period and used less than the threshold, in listing order. |
| Uposatha.MarkedIds | packages/brain/rituals/uposatha.py:51-66 | An id is marked exactly when some gem with it is a phantom. |
| Uposatha.Without | packages/brain/rituals/uposatha.py:72 | Deletion by ids keeps exactly the gems whose id is not listed. |
| Uposatha.UposathaCleaner.CleanseEntropy | packages/brain/rituals/uposatha.py:32-77 | The report is `CleanseReport` of the old collection (`clean`, `stable` or `purified` with the count). The collection becomes `CleansedVault` of it: exactly the old gems that are not phantoms remain. Ids stay unique. |
| Uposatha.WithoutKeepsUniqueIds | packages/brain/rituals/uposatha.py:72 | Deleting gems keeps the remaining ids unique. |
| Uposatha.SurvivorsAreNotPhantoms | packages/brain/rituals/uposatha.py:65-74 | With unique ids, the survivors are exactly the non-phantom gems, and deleted plus surviving equals the vault size. |
| Uposatha.PartitionCount | packages/brain/rituals/uposatha.py:70-74 | Marked and kept gems add up to the vault size. |
| Uposatha.UndatedGemsSurvive | packages/brain/rituals/uposatha.py:55-58 | A gem whose timestamp is missing or unparsable counts as synced now and is never released. |
| Uposatha.VerifyScriptScenario | packages/brain/verify_uposatha.py:12-20 | For the vibrant, phantom and sleeping gems, the ritual reports `purified` with 1, and the vibrant and sleeping gems remain. |

## Left out

- The acorn parser is a parameter `Parser` (content to optional program). Syntax beyond the top-level import/export shapes the engine reads is not modelled.
- Console logging in every core file (`console.log`, `console.warn`, `console.error`, Python `logging`) is left out; it does not affect results.
- `AnalysisEngine.parseAllFiles` and `findCircularDependencies` are split into one method per pass or loop (`ParseAsts`, `CollectSymbolsAndDependencies`, `CountUsages`, `ChargeNames`, `CycleSearch`). The recursive closure `dfs` is a method of `CycleDetection.CycleSearch`.
- `JSON.stringify` is foreign code. In cycle deduplication, comparing the serialised sorted lists is modelled as comparing the sorted lists, which is equivalent because that serialisation of string arrays is injective. In the bus, the serialiser of intent vectors is a parameter of `AetherBus`.
- JavaScript `sort` compares UTF-16 code units; the model compares Dafny characters in code-point order. The two differ only outside the Basic Multilingual Plane.
- JavaScript object prototype keys (`graph["constructor"]`, and the like) are not modelled: the graph is a map keyed by the snapshot paths.
- Analysis.AnalyzeDeadSymbols: holds only for identifiers free of `:`, because the usage key `path::name` is ambiguous otherwise; ECMAScript identifiers never contain `:`.
- MockFileSystem.MockFileSystemAnalysis: the parser is foreign code, so the lemma takes as given that it reads each seed file as the tree written out in `Seed`. Those trees keep only the top-level import and export shapes the engine inspects.
- Refactoring.RewriteBreaksAuthClientCycle: the parser is a parameter, so the lemma assumes that it reads the new auth.ts and client.ts as having only the provider import, and that each of the two paths has one record; DuplicateAuthRecordKeepsEdge shows the edge can survive otherwise.
- Refactoring.RewrittenImportsReachProvider: assumes the snapshot has no `src/services/tokenProvider.tsx`, because the lookup would otherwise find that file first.
- `Date.now()` is a parameter of `Publish`. `Object.freeze` is not modelled, because the envelope is an immutable value. The `getInstance` singleton is left out; the bus is an ordinary object.
- Subscriber callbacks are opaque ids. `Publish` records one delivery per call; what a callback does, re-entrant publishing and subscribing, and thrown exceptions (caught, so the loop goes on) are not modelled.
- The unsubscribe closure returned by `subscribe` is the `Subscription` value handed to `Unsubscribe`.
- Aether.Field: reading a member of `null` or `undefined` throws in JavaScript, and the field reads of `createIntentVector` would do so. The model reads such a member as `undefined` instead. Validation runs first, so this matters only for the signal and unknown events, which read no fields.
- Aether.NodeVectorDropsContent: `content.length` counts UTF-16 code units; the model counts characters.
- JavaScript numbers and Python floats are modelled as `int` and `real`, not IEEE doubles (the hash is modelled on integers with explicit 32-bit truncation, which is what `|0` does).
- The `AetherEventType` union in types.ts omits two event names; the model takes the event types from the validator's cases plus any other string.
- Identity.Inspect: the TypeError that comparing a non-numeric score with -0.9 raises is the result `None`.
- Python dictionaries are maps, so key order is not modelled.
- `PRGX_Triad` only constructs the three stateless classes and is left out.
- The ChromaDB collection is a sequence of gems, and `datetime` parsing is left out: each gem's age in days is a decoded input, absent when `last_synced` is missing or unparsable (which counts as age 0). Usage counts that are not integers are not modelled.
