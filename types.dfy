/**
 * The shared records of the console (types.ts): a file of the in-memory
 * snapshot, a symbol exported by a file and a dependency edge between files.
 */
module Types {

  /** One file of the snapshot: its path (the identifier) and its source text. */
  datatype CodeFile = CodeFile(path: string, content: string)

  datatype SymbolKind = Function | Class | Variable

  datatype CodeSymbol = CodeSymbol(name: string, kind: SymbolKind, exported: bool)

  /** `from` imports `to`. */
  datatype Dependency = Dependency(from: string, to: string)

  /** An exported symbol that no import reaches. */
  datatype DeadSymbol = DeadSymbol(path: string, symbolName: string)

  /**
   * What one analysis run returns. `symbols` is a JavaScript Map, so its
   * key order (`symbolOrder`) is part of the value.
   */
  datatype AnalysisResult = AnalysisResult(
    dependencies: seq<Dependency>,
    symbols: map<string, seq<CodeSymbol>>,
    symbolOrder: seq<string>,
    deadCodeSymbols: seq<DeadSymbol>,
    deadCodeFiles: seq<string>,
    circularDependencies: seq<seq<string>>,
    circularDependencyFiles: seq<seq<string>>)

  /** The paths of a snapshot, in snapshot order. */
  function Paths(files: seq<CodeFile>): (ps: seq<string>)
    ensures |ps| == |files|
    ensures forall i :: 0 <= i < |files| ==> ps[i] == files[i].path
  {
    seq(|files|, i requires 0 <= i < |files| => files[i].path)
  }

  /** Some record of the snapshot has path `p`. */
  predicate HasPath(files: seq<CodeFile>, p: string)
  {
    exists i :: 0 <= i < |files| && files[i].path == p
  }

  /** Sequence concatenation is associative; the loops that append one piece at a time use it. */
  lemma AppendAssoc<T>(a: seq<T>, b: seq<T>, c: seq<T>)
    ensures (a + b) + c == a + (b + c)
  {
  }

  /** Writing back the element a slot already holds leaves the sequence as it was. */
  lemma UpdateWithSame<T>(s: seq<T>, i: nat, x: T)
    requires i < |s| && s[i] == x
    ensures s[i := x] == s
  {
  }
}
