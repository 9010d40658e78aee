/**
 * The symbol table of the analysis engine (services/analysisEngine.ts):
 * which symbols a file exports (parseSymbols), which names it imports
 * (getImportedSymbols), how imports are charged to the first exporting file
 * (the usage count of pass 2 of parseAllFiles) and which exports and files
 * are dead (findDeadCode).
 */
module SymbolTable {
  import opened Wrappers
  import opened Types
  import opened Estree

  // ---------------------------------------------------------------------
  // Exported symbols
  // ---------------------------------------------------------------------

  /**
   * The name an exported declaration introduces: the identifier of a
   * function or class, the identifier bound by the first declarator of a
   * variable declaration, and "" otherwise (a destructuring pattern, or no
   * declarator at all).
   */
  function DeclaredName(decl: Declaration): string
  {
    match decl
    case FunctionDeclaration(id) => id
    case ClassDeclaration(id) => id
    case VariableDeclaration(ds) =>
      if |ds| > 0 && ds[0].id.Identifier? then ds[0].id.name else ""
  }

  function KindOf(decl: Declaration): SymbolKind
  {
    match decl
    case FunctionDeclaration(_) => Function
    case ClassDeclaration(_) => Class
    case VariableDeclaration(_) => Variable
  }

  /** The symbol a top-level statement exports: only `export <declaration>` with a non-empty name has one. */
  function SymbolOf(node: Node): Option<CodeSymbol>
  {
    match node
    case ExportNamedDeclaration(Some(decl)) =>
      if DeclaredName(decl) != "" then Some(CodeSymbol(DeclaredName(decl), KindOf(decl), true)) else None
    case _ => None
  }

  /** The symbols a module exports, in statement order. */
  function SymbolsOf(body: seq<Node>): (syms: seq<CodeSymbol>)
    ensures forall k :: 0 <= k < |syms| ==> syms[k].exported && syms[k].name != ""
    ensures |syms| <= |body|
    decreases |body|
  {
    if body == [] then []
    else
      (match SymbolOf(body[0]) case Some(s) => [s] case None => []) + SymbolsOf(body[1..])
  }

  /** The symbols of a suffix of the body: its first statement's, then the rest. */
  lemma SymbolsOfStep(body: seq<Node>, i: nat)
    requires i < |body|
    ensures SymbolsOf(body[i..]) == (match SymbolOf(body[i]) case Some(s) => [s] case None => []) + SymbolsOf(body[i + 1..])
  {
    assert body[i..][1..] == body[i + 1..];
  }

  /** A symbol is listed exactly when some statement of the module exports it. */
  lemma {:induction false} SymbolsOfIff(body: seq<Node>, s: CodeSymbol)
    ensures s in SymbolsOf(body) <==> exists i :: 0 <= i < |body| && SymbolOf(body[i]) == Some(s)
    decreases |body|
  {
    if body != [] {
      SymbolsOfIff(body[1..], s);
      if exists i :: 0 <= i < |body| && SymbolOf(body[i]) == Some(s) {
        var i :| 0 <= i < |body| && SymbolOf(body[i]) == Some(s);
        if i > 0 { assert body[1..][i - 1] == body[i]; }
      }
      if exists i :: 0 <= i < |body[1..]| && SymbolOf(body[1..][i]) == Some(s) {
        var i :| 0 <= i < |body[1..]| && SymbolOf(body[1..][i]) == Some(s);
        assert body[i + 1] == body[1..][i];
      }
    }
  }

  /** A module with no named export declaration exports nothing (a parse failure gives such a module). */
  lemma {:induction false} NoExportsNoSymbols(body: seq<Node>)
    requires forall i :: 0 <= i < |body| ==> !body[i].ExportNamedDeclaration?
    ensures SymbolsOf(body) == []
    decreases |body|
  {
    if body != [] {
      NoExportsNoSymbols(body[1..]);
    }
  }

  // ---------------------------------------------------------------------
  // Imported names
  // ---------------------------------------------------------------------

  /** The `imported` names of the named specifiers; default and namespace specifiers name nothing. */
  function SpecifierNames(specs: seq<ModuleSpecifier>): seq<string>
    decreases |specs|
  {
    if specs == [] then []
    else (if specs[0].ImportSpecifier? then [specs[0].imported] else []) + SpecifierNames(specs[1..])
  }

  /** The names a module imports by named specifiers, in statement and specifier order. */
  function ImportedNames(body: seq<Node>): seq<string>
    decreases |body|
  {
    if body == [] then []
    else (if body[0].ImportDeclaration? then SpecifierNames(body[0].specifiers) else []) + ImportedNames(body[1..])
  }

  /** The names of a suffix of the specifiers: the first one's, then the rest. */
  lemma SpecifierNamesStep(specs: seq<ModuleSpecifier>, j: nat)
    requires j < |specs|
    ensures SpecifierNames(specs[j..])
            == (if specs[j].ImportSpecifier? then [specs[j].imported] else []) + SpecifierNames(specs[j + 1..])
  {
    assert specs[j..][1..] == specs[j + 1..];
  }

  /** The names of a suffix of the body: its first statement's, then the rest. */
  lemma ImportedNamesStep(body: seq<Node>, i: nat)
    requires i < |body|
    ensures ImportedNames(body[i..])
            == (if body[i].ImportDeclaration? then SpecifierNames(body[i].specifiers) else []) + ImportedNames(body[i + 1..])
  {
    assert body[i..][1..] == body[i + 1..];
  }

  /** A named specifier `{ n }` or `{ n as m }` is what puts `n` in the list. */
  predicate ImportsByName(node: Node, j: int, n: string)
  {
    node.ImportDeclaration? && 0 <= j < |node.specifiers|
    && node.specifiers[j].ImportSpecifier? && node.specifiers[j].imported == n
  }

  lemma {:induction false} SpecifierNamesIff(specs: seq<ModuleSpecifier>, n: string)
    ensures n in SpecifierNames(specs) <==>
            exists j :: 0 <= j < |specs| && specs[j].ImportSpecifier? && specs[j].imported == n
    decreases |specs|
  {
    if specs != [] {
      SpecifierNamesIff(specs[1..], n);
      if exists j :: 0 <= j < |specs| && specs[j].ImportSpecifier? && specs[j].imported == n {
        var j :| 0 <= j < |specs| && specs[j].ImportSpecifier? && specs[j].imported == n;
        if j > 0 { assert specs[1..][j - 1] == specs[j]; }
      }
      if exists j :: 0 <= j < |specs[1..]| && specs[1..][j].ImportSpecifier? && specs[1..][j].imported == n {
        var j :| 0 <= j < |specs[1..]| && specs[1..][j].ImportSpecifier? && specs[1..][j].imported == n;
        assert specs[j + 1] == specs[1..][j];
      }
    }
  }

  /** A name is imported exactly when some import declaration names it in a `{ ... }` specifier. */
  lemma {:induction false} ImportedNamesIff(body: seq<Node>, n: string)
    ensures n in ImportedNames(body) <==> exists i, j :: 0 <= i < |body| && ImportsByName(body[i], j, n)
    decreases |body|
  {
    if body != [] {
      ImportedNamesIff(body[1..], n);
      if body[0].ImportDeclaration? {
        var specs := body[0].specifiers;
        SpecifierNamesIff(specs, n);
        if n in SpecifierNames(specs) {
          var j :| 0 <= j < |specs| && specs[j].ImportSpecifier? && specs[j].imported == n;
          assert ImportsByName(body[0], j, n);
        }
      }
      assert ImportedNames(body) == (if body[0].ImportDeclaration? then SpecifierNames(body[0].specifiers) else [])
                                    + ImportedNames(body[1..]);
      if exists j :: ImportsByName(body[0], j, n) {
        var j :| ImportsByName(body[0], j, n);
        SpecifierNamesIff(body[0].specifiers, n);
      }
      if exists i, j :: 0 <= i < |body| && ImportsByName(body[i], j, n) {
        var i, j :| 0 <= i < |body| && ImportsByName(body[i], j, n);
        if i > 0 { assert body[1..][i - 1] == body[i]; }
      }
      if exists i, j :: 0 <= i < |body[1..]| && ImportsByName(body[1..][i], j, n) {
        var i, j :| 0 <= i < |body[1..]| && ImportsByName(body[1..][i], j, n);
        assert body[i + 1] == body[1..][i];
      }
    }
  }

  // ---------------------------------------------------------------------
  // Charging imports to exporters
  // ---------------------------------------------------------------------

  /** `symbols.get(path) || []`. */
  function Lookup(symbols: map<string, seq<CodeSymbol>>, path: string): seq<CodeSymbol>
  {
    if path in symbols then symbols[path] else []
  }

  /** `syms.some(s => s.exported && s.name === name)`. */
  predicate Exports(syms: seq<CodeSymbol>, name: string)
  {
    exists k :: 0 <= k < |syms| && syms[k].exported && syms[k].name == name
  }

  /** `Exports` names the position of the export. */
  lemma ExportsAt(syms: seq<CodeSymbol>, name: string)
    ensures Exports(syms, name) <==> exists k :: ExportedAs(syms, k, name)
  {
    if Exports(syms, name) {
      var k :| 0 <= k < |syms| && syms[k].exported && syms[k].name == name;
      assert ExportedAs(syms, k, name);
    }
  }

  /** The first snapshot file whose symbol list exports `name`. */
  function FirstExporter(files: seq<CodeFile>, symbols: map<string, seq<CodeSymbol>>, name: string): (e: Option<string>)
    ensures e.None? ==> forall i :: 0 <= i < |files| ==> !Exports(Lookup(symbols, files[i].path), name)
    ensures e.Some? ==> exists i :: 0 <= i < |files| && files[i].path == e.value
                                    && Exports(Lookup(symbols, e.value), name)
                                    && forall j :: 0 <= j < i ==> !Exports(Lookup(symbols, files[j].path), name)
    decreases |files|
  {
    if files == [] then None
    else if Exports(Lookup(symbols, files[0].path), name) then Some(files[0].path)
    else
      var e := FirstExporter(files[1..], symbols, name);
      assert e.Some? ==> exists i :: 1 <= i < |files| && files[i].path == e.value
                                     && forall j :: 0 <= j < i ==> !Exports(Lookup(symbols, files[j].path), name) by {
        if e.Some? {
          var i :| 0 <= i < |files[1..]| && files[1..][i].path == e.value
                   && forall j :: 0 <= j < i ==> !Exports(Lookup(symbols, files[1..][j].path), name);
          assert files[i + 1] == files[1..][i];
          forall j | 0 <= j < i + 1 ensures !Exports(Lookup(symbols, files[j].path), name) {
            if j > 0 { assert files[j] == files[1..][j - 1]; }
          }
        }
      }
      e
  }

  /** The usage key `${path}::${name}`. */
  function Key(path: string, name: string): string
  {
    path + "::" + name
  }

  /** Symbol names never contain ':', and then a key determines its path and its name. */
  lemma KeyInjective(p1: string, n1: string, p2: string, n2: string)
    requires ':' !in n1 && ':' !in n2
    requires Key(p1, n1) == Key(p2, n2)
    ensures p1 == p2 && n1 == n2
  {
    var k := Key(p1, n1);
    assert k == Key(p2, n2);
    assert k[|k| - |n1| - 1] == ':';
    assert k[|k| - |n2| - 1] == ':';
    assert forall i :: |k| - |n1| <= i < |k| ==> k[i] == n1[i - (|k| - |n1|)];
    assert forall i :: |k| - |n2| <= i < |k| ==> k[i] == n2[i - (|k| - |n2|)];
    assert |n1| == |n2|;
    assert n1 == k[|k| - |n1|..] == n2;
    assert p1 == k[..|p1|] == p2;
  }

  /** The key an imported name is charged to: the first exporter's, or none when nobody exports it. */
  function UsageKey(files: seq<CodeFile>, symbols: map<string, seq<CodeSymbol>>, name: string): Option<string>
  {
    match FirstExporter(files, symbols, name)
    case Some(p) => Some(Key(p, name))
    case None => None
  }

  /** `usages.get(key) || 0`. */
  function Count(usages: map<string, int>, key: string): int
  {
    if key in usages then usages[key] else 0
  }

  /** One imported name handled by pass 2: its key, if it has one, is incremented. */
  function Charge(usages: map<string, int>, files: seq<CodeFile>, symbols: map<string, seq<CodeSymbol>>, name: string): map<string, int>
  {
    match UsageKey(files, symbols, name)
    case Some(k) => usages[k := Count(usages, k) + 1]
    case None => usages
  }

  /** Pass 2 over a list of imported names, left to right. */
  function CountNames(usages: map<string, int>, files: seq<CodeFile>, symbols: map<string, seq<CodeSymbol>>, names: seq<string>): map<string, int>
    decreases |names|
  {
    if names == [] then usages
    else CountNames(Charge(usages, files, symbols, names[0]), files, symbols, names[1..])
  }

  /** How many of `names` are charged to `key`. */
  function Occurrences(files: seq<CodeFile>, symbols: map<string, seq<CodeSymbol>>, names: seq<string>, key: string): nat
    decreases |names|
  {
    if names == [] then 0
    else (if UsageKey(files, symbols, names[0]) == Some(key) then 1 else 0) + Occurrences(files, symbols, names[1..], key)
  }

  /** Counting in two halves is counting the whole list. */
  lemma {:induction false} CountNamesAppend(usages: map<string, int>, files: seq<CodeFile>, symbols: map<string, seq<CodeSymbol>>, a: seq<string>, b: seq<string>)
    ensures CountNames(usages, files, symbols, a + b) == CountNames(CountNames(usages, files, symbols, a), files, symbols, b)
    decreases |a|
  {
    if a == [] {
      assert a + b == b;
    } else {
      assert (a + b)[0] == a[0];
      assert (a + b)[1..] == a[1..] + b;
      CountNamesAppend(Charge(usages, files, symbols, a[0]), files, symbols, a[1..], b);
    }
  }

  /**
   * After counting, every key holds its previous count plus the number of
   * names charged to it, and a key is present exactly when it was before or
   * some name was charged to it.
   */
  lemma {:induction false} CountNamesCounts(usages: map<string, int>, files: seq<CodeFile>, symbols: map<string, seq<CodeSymbol>>, names: seq<string>, key: string)
    ensures Count(CountNames(usages, files, symbols, names), key) == Count(usages, key) + Occurrences(files, symbols, names, key)
    ensures key in CountNames(usages, files, symbols, names) <==> key in usages || Occurrences(files, symbols, names, key) > 0
    decreases |names|
  {
    if names != [] {
      CountNamesCounts(Charge(usages, files, symbols, names[0]), files, symbols, names[1..], key);
    }
  }

  /** A name is charged to `key` somewhere in the list exactly when its occurrence count is positive. */
  lemma {:induction false} OccurrencesPositive(files: seq<CodeFile>, symbols: map<string, seq<CodeSymbol>>, names: seq<string>, key: string)
    ensures Occurrences(files, symbols, names, key) > 0 <==>
            exists i :: 0 <= i < |names| && UsageKey(files, symbols, names[i]) == Some(key)
    decreases |names|
  {
    if names != [] {
      OccurrencesPositive(files, symbols, names[1..], key);
      if exists i :: 0 <= i < |names| && UsageKey(files, symbols, names[i]) == Some(key) {
        var i :| 0 <= i < |names| && UsageKey(files, symbols, names[i]) == Some(key);
        if i > 0 { assert names[1..][i - 1] == names[i]; }
      }
      if exists i :: 0 <= i < |names[1..]| && UsageKey(files, symbols, names[1..][i]) == Some(key) {
        var i :| 0 <= i < |names[1..]| && UsageKey(files, symbols, names[1..][i]) == Some(key);
        assert names[i + 1] == names[1..][i];
      }
    }
  }

  /**
   * Counting from an empty table: a key is present exactly when some name
   * is charged to it, and then its count is at least one.
   */
  lemma UsagesFromEmpty(files: seq<CodeFile>, symbols: map<string, seq<CodeSymbol>>, names: seq<string>, key: string)
    ensures key in CountNames(map[], files, symbols, names) <==>
            exists i :: 0 <= i < |names| && UsageKey(files, symbols, names[i]) == Some(key)
    ensures key in CountNames(map[], files, symbols, names) ==> CountNames(map[], files, symbols, names)[key] >= 1
  {
    CountNamesCounts(map[], files, symbols, names, key);
    OccurrencesPositive(files, symbols, names, key);
  }

  /**
   * An import is only ever charged to the first snapshot file exporting its
   * name: a usage key for `path::name` comes from a name `name` whose first
   * exporter has path `path`.
   */
  lemma ChargedToFirstExporter(files: seq<CodeFile>, symbols: map<string, seq<CodeSymbol>>, other: string, path: string, name: string)
    requires ':' !in name && ':' !in other
    requires UsageKey(files, symbols, other) == Some(Key(path, name))
    ensures other == name
    ensures exists m :: 0 <= m < |files| && files[m].path == path && Exports(Lookup(symbols, path), name)
                        && forall l :: 0 <= l < m ==> !Exports(Lookup(symbols, files[l].path), name)
  {
    var e := FirstExporter(files, symbols, other);
    KeyInjective(e.value, other, path, name);
  }

  /**
   * With identifiers free of ':', some name of the list is charged to
   * `path::name` exactly when `name` itself is in the list and `path` is
   * its first exporter.
   */
  lemma KeyChargedIff(files: seq<CodeFile>, symbols: map<string, seq<CodeSymbol>>, names: seq<string>, path: string, name: string)
    requires ':' !in name
    requires forall k :: 0 <= k < |names| ==> ':' !in names[k]
    ensures (exists i :: 0 <= i < |names| && UsageKey(files, symbols, names[i]) == Some(Key(path, name))) <==>
            name in names && FirstExporter(files, symbols, name) == Some(path)
  {
    if exists i :: 0 <= i < |names| && UsageKey(files, symbols, names[i]) == Some(Key(path, name)) {
      var i :| 0 <= i < |names| && UsageKey(files, symbols, names[i]) == Some(Key(path, name));
      var e := FirstExporter(files, symbols, names[i]);
      KeyInjective(e.value, names[i], path, name);
    }
    if name in names && FirstExporter(files, symbols, name) == Some(path) {
      var i :| 0 <= i < |names| && names[i] == name;
      assert UsageKey(files, symbols, names[i]) == Some(Key(path, name));
    }
  }

  /**
   * A later file exporting a name that an earlier file already exports is
   * never charged for it, so its export always counts as dead.
   */
  lemma ShadowedExportNeverCharged(files: seq<CodeFile>, symbols: map<string, seq<CodeSymbol>>, i: int, j: int, name: string, other: string)
    requires 0 <= i < j < |files|
    requires forall l :: 0 <= l <= i ==> files[l].path != files[j].path
    requires Exports(Lookup(symbols, files[i].path), name)
    requires ':' !in name && ':' !in other
    ensures UsageKey(files, symbols, other) != Some(Key(files[j].path, name))
  {
    if UsageKey(files, symbols, other) == Some(Key(files[j].path, name)) {
      ChargedToFirstExporter(files, symbols, other, files[j].path, name);
    }
  }

  // ---------------------------------------------------------------------
  // Dead code
  // ---------------------------------------------------------------------

  /** The exported symbols of one file whose key has no usage, in list order. */
  function DeadSymbolsOf(path: string, syms: seq<CodeSymbol>, usages: map<string, int>): seq<DeadSymbol>
    decreases |syms|
  {
    if syms == [] then []
    else
      (if syms[0].exported && Key(path, syms[0].name) !in usages then [DeadSymbol(path, syms[0].name)] else [])
      + DeadSymbolsOf(path, syms[1..], usages)
  }

  /** The dead symbols of every file of the table, files in table order. */
  function DeadSymbols(order: seq<string>, symbols: map<string, seq<CodeSymbol>>, usages: map<string, int>): seq<DeadSymbol>
    decreases |order|
  {
    if order == [] then []
    else DeadSymbolsOf(order[0], Lookup(symbols, order[0]), usages) + DeadSymbols(order[1..], symbols, usages)
  }

  /** The dead symbols of a suffix of the table order: its first file's, then the rest. */
  lemma DeadSymbolsStep(order: seq<string>, symbols: map<string, seq<CodeSymbol>>, usages: map<string, int>, i: nat)
    requires i < |order|
    ensures DeadSymbols(order[i..], symbols, usages)
            == DeadSymbolsOf(order[i], Lookup(symbols, order[i]), usages) + DeadSymbols(order[i + 1..], symbols, usages)
  {
    assert order[i..][1..] == order[i + 1..];
  }

  /** The dead symbols of a suffix of one file's list: its first symbol's, then the rest. */
  lemma DeadSymbolsOfStep(path: string, syms: seq<CodeSymbol>, usages: map<string, int>, j: nat)
    requires j < |syms|
    ensures DeadSymbolsOf(path, syms[j..], usages)
            == (if syms[j].exported && Key(path, syms[j].name) !in usages then [DeadSymbol(path, syms[j].name)] else [])
               + DeadSymbolsOf(path, syms[j + 1..], usages)
  {
    assert syms[j..][1..] == syms[j + 1..];
  }

  /** `s` is an exported symbol of `syms` called `name`. */
  predicate ExportedAs(syms: seq<CodeSymbol>, k: int, name: string)
  {
    0 <= k < |syms| && syms[k].exported && syms[k].name == name
  }

  lemma {:induction false} DeadSymbolsOfIff(path: string, syms: seq<CodeSymbol>, usages: map<string, int>, d: DeadSymbol)
    ensures d in DeadSymbolsOf(path, syms, usages) <==>
            d.path == path && Key(path, d.symbolName) !in usages && exists k :: ExportedAs(syms, k, d.symbolName)
    decreases |syms|
  {
    if syms != [] {
      DeadSymbolsOfIff(path, syms[1..], usages, d);
      assert DeadSymbolsOf(path, syms, usages) ==
             (if syms[0].exported && Key(path, syms[0].name) !in usages then [DeadSymbol(path, syms[0].name)] else [])
             + DeadSymbolsOf(path, syms[1..], usages);
      assert syms[0].exported && syms[0].name == d.symbolName ==> ExportedAs(syms, 0, d.symbolName);
      if exists k :: ExportedAs(syms, k, d.symbolName) {
        var k :| ExportedAs(syms, k, d.symbolName);
        if k > 0 { assert ExportedAs(syms[1..], k - 1, d.symbolName); }
      }
      if exists k :: ExportedAs(syms[1..], k, d.symbolName) {
        var k :| ExportedAs(syms[1..], k, d.symbolName);
        assert ExportedAs(syms, k + 1, d.symbolName);
      }
    }
  }

  /**
   * An entry `{path, symbolName}` is reported dead exactly when `path` is
   * in the table, exports a symbol of that name, and that key has no usage.
   */
  lemma {:induction false} DeadSymbolsIff(order: seq<string>, symbols: map<string, seq<CodeSymbol>>, usages: map<string, int>, d: DeadSymbol)
    ensures d in DeadSymbols(order, symbols, usages) <==>
            d.path in order && Key(d.path, d.symbolName) !in usages
            && exists k :: ExportedAs(Lookup(symbols, d.path), k, d.symbolName)
    decreases |order|
  {
    if order != [] {
      DeadSymbolsIff(order[1..], symbols, usages, d);
      DeadSymbolsOfIff(order[0], Lookup(symbols, order[0]), usages, d);
      assert order == [order[0]] + order[1..];
    }
  }

  /** Every symbol of `syms` has an entry of `dead` with path `path` and its name. */
  predicate AllListedDead(path: string, syms: seq<CodeSymbol>, dead: seq<DeadSymbol>)
  {
    forall k :: 0 <= k < |syms| ==> DeadSymbol(path, syms[k].name) in dead
  }

  /** A file is dead when it has symbols and each of them is listed dead. */
  predicate IsDeadFile(symbols: map<string, seq<CodeSymbol>>, path: string, dead: seq<DeadSymbol>)
  {
    |Lookup(symbols, path)| > 0 && AllListedDead(path, Lookup(symbols, path), dead)
  }

  /** The dead files, one entry per snapshot record, in snapshot order. */
  function DeadFiles(files: seq<CodeFile>, symbols: map<string, seq<CodeSymbol>>, dead: seq<DeadSymbol>): (ps: seq<string>)
    ensures forall k :: 0 <= k < |ps| ==> HasPath(files, ps[k]) && IsDeadFile(symbols, ps[k], dead)
    ensures |ps| <= |files|
    decreases |files|
  {
    if files == [] then []
    else
      var rest := DeadFiles(files[1..], symbols, dead);
      assert forall k :: 0 <= k < |rest| ==> HasPath(files, rest[k]) by {
        forall k | 0 <= k < |rest| ensures HasPath(files, rest[k]) {
          var i :| 0 <= i < |files[1..]| && files[1..][i].path == rest[k];
          assert files[i + 1].path == rest[k];
        }
      }
      (if IsDeadFile(symbols, files[0].path, dead) then [files[0].path] else []) + rest
  }

  /** Every snapshot file whose symbols are all listed dead is reported. */
  lemma {:induction false} DeadFilesComplete(files: seq<CodeFile>, symbols: map<string, seq<CodeSymbol>>, dead: seq<DeadSymbol>, p: string)
    requires HasPath(files, p) && IsDeadFile(symbols, p, dead)
    ensures p in DeadFiles(files, symbols, dead)
    decreases |files|
  {
    var rest := DeadFiles(files[1..], symbols, dead);
    assert DeadFiles(files, symbols, dead) ==
           (if IsDeadFile(symbols, files[0].path, dead) then [files[0].path] else []) + rest;
    if files[0].path != p {
      var i :| 0 <= i < |files| && files[i].path == p;
      assert files[1..][i - 1].path == p;
      DeadFilesComplete(files[1..], symbols, dead, p);
    }
  }

  /**
   * With `dead` computed from the table itself, a file with symbols is dead
   * exactly when none of its symbols' keys has a usage.
   */
  lemma DeadFileIffUnused(order: seq<string>, symbols: map<string, seq<CodeSymbol>>, usages: map<string, int>, path: string)
    requires path in order
    requires forall k :: 0 <= k < |Lookup(symbols, path)| ==> Lookup(symbols, path)[k].exported
    ensures IsDeadFile(symbols, path, DeadSymbols(order, symbols, usages)) <==>
            |Lookup(symbols, path)| > 0 &&
            forall k :: 0 <= k < |Lookup(symbols, path)| ==> Key(path, Lookup(symbols, path)[k].name) !in usages
  {
    var syms := Lookup(symbols, path);
    var dead := DeadSymbols(order, symbols, usages);
    forall k | 0 <= k < |syms|
      ensures DeadSymbol(path, syms[k].name) in dead <==> Key(path, syms[k].name) !in usages
    {
      DeadSymbolsIff(order, symbols, usages, DeadSymbol(path, syms[k].name));
      assert ExportedAs(syms, k, syms[k].name);
    }
  }
}
