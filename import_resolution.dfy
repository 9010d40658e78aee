/**
 * How the analysis engine turns an import declaration of one file into a
 * dependency edge (services/analysisEngine.ts, parseDependencies): strip the
 * first ".ts"/".tsx", walk the specifier's segments from the importer's
 * directory, append ".ts", and take the first snapshot file whose path is
 * that string or that string plus "x".
 */
module ImportResolution {
  import opened Wrappers
  import opened Types
  import opened JsStrings
  import opened Estree

  /** `filePath.substring(0, filePath.lastIndexOf('/'))`. */
  function BasePath(filePath: string): (base: string)
    ensures LastIndexOf(filePath, '/') < 0 ==> base == ""
    ensures LastIndexOf(filePath, '/') >= 0 ==>
              filePath == base + "/" + filePath[LastIndexOf(filePath, '/') + 1..]
  {
    var k := LastIndexOf(filePath, '/');
    assert k >= 0 ==> filePath == filePath[..k] + [filePath[k]] + filePath[k + 1..];
    Substring(filePath, 0, k)
  }

  /**
   * One pass of the resolution loop: ".." pops the last segment (popping an
   * empty list does nothing), "." is skipped and any other segment, empty
   * or not, is pushed.
   */
  function ResolveStep(pathParts: seq<string>, part: string): seq<string>
  {
    if part == ".." then (if pathParts == [] then [] else pathParts[..|pathParts| - 1])
    else if part != "." then pathParts + [part]
    else pathParts
  }

  /** The resolution loop over all segments of the specifier, in order. */
  function ApplySegments(pathParts: seq<string>, importParts: seq<string>): seq<string>
    decreases |importParts|
  {
    if importParts == [] then pathParts
    else ApplySegments(ResolveStep(pathParts, importParts[0]), importParts[1..])
  }

  /** The path an import specifier resolves to, ".ts" suffix included. */
  function ResolvedPath(filePath: string, source: string): string
  {
    var pathParts := Split(BasePath(filePath), '/');
    var importParts := Split(StripTsExtension(source), '/');
    Join(ApplySegments(pathParts, importParts), '/') + ".ts"
  }

  /** A snapshot path that the resolved string designates. */
  predicate Matches(path: string, resolved: string)
  {
    path == resolved || path == resolved + "x"
  }

  /** `files.find(f => f.path === resolved || f.path === resolved + 'x')`, as a path. */
  function FindTarget(files: seq<CodeFile>, resolved: string): (t: Option<string>)
    ensures t.None? ==> forall i :: 0 <= i < |files| ==> !Matches(files[i].path, resolved)
    ensures t.Some? ==> exists i :: 0 <= i < |files| && files[i].path == t.value
                                    && Matches(t.value, resolved)
                                    && forall j :: 0 <= j < i ==> !Matches(files[j].path, resolved)
    decreases |files|
  {
    if files == [] then None
    else if Matches(files[0].path, resolved) then Some(files[0].path)
    else
      var t := FindTarget(files[1..], resolved);
      assert t.Some? ==> exists i :: 1 <= i < |files| && files[i].path == t.value
                                     && forall j :: 0 <= j < i ==> !Matches(files[j].path, resolved) by {
        if t.Some? {
          var i :| 0 <= i < |files[1..]| && files[1..][i].path == t.value
                   && forall j :: 0 <= j < i ==> !Matches(files[1..][j].path, resolved);
          assert files[i + 1] == files[1..][i];
          forall j | 0 <= j < i + 1 ensures !Matches(files[j].path, resolved) {
            if j > 0 { assert files[j] == files[1..][j - 1]; }
          }
        }
      }
      t
  }

  /** The lookup finds the record at `i` when it holds `resolved` itself and no earlier record matches. */
  lemma FindTargetAt(files: seq<CodeFile>, resolved: string, i: nat)
    requires i < |files| && files[i].path == resolved
    requires forall j :: 0 <= j < i ==> !Matches(files[j].path, resolved)
    ensures FindTarget(files, resolved) == Some(resolved)
  {
    var t := FindTarget(files, resolved);
    assert Matches(files[i].path, resolved);
    var k :| 0 <= k < |files| && files[k].path == t.value && Matches(t.value, resolved)
             && forall j :: 0 <= j < k ==> !Matches(files[j].path, resolved);
    assert k == i;
  }

  /**
   * The file an import node makes the importer depend on: only an import
   * declaration with a non-empty source whose resolved path matches a
   * snapshot file has one.
   */
  function ImportTarget(files: seq<CodeFile>, filePath: string, node: Node): Option<string>
  {
    match node
    case ImportDeclaration(source, _) =>
      if source != "" then FindTarget(files, ResolvedPath(filePath, source)) else None
    case _ => None
  }

  /** The edges one file's top-level statements produce, in statement order. */
  function DependenciesOf(files: seq<CodeFile>, filePath: string, body: seq<Node>): seq<Dependency>
    decreases |body|
  {
    if body == [] then []
    else EdgesOf(files, filePath, body[0]) + DependenciesOf(files, filePath, body[1..])
  }

  /** The edge (at most one) a single statement contributes. */
  function EdgesOf(files: seq<CodeFile>, filePath: string, node: Node): seq<Dependency>
  {
    match ImportTarget(files, filePath, node)
    case Some(t) => [Dependency(filePath, t)]
    case None => []
  }

  /** The edges of a suffix of the body: its first statement's edge, then the rest. */
  lemma DependenciesOfStep(files: seq<CodeFile>, filePath: string, body: seq<Node>, i: nat)
    requires i < |body|
    ensures DependenciesOf(files, filePath, body[i..])
            == EdgesOf(files, filePath, body[i]) + DependenciesOf(files, filePath, body[i + 1..])
  {
    assert body[i..][1..] == body[i + 1..];
  }

  // ---------------------------------------------------------------------
  // Properties
  // ---------------------------------------------------------------------

  /** Every edge leaves the importing file and ends at a snapshot file, and no statement gives two edges. */
  lemma {:induction false} DependenciesOfEdges(files: seq<CodeFile>, filePath: string, body: seq<Node>)
    ensures forall d :: d in DependenciesOf(files, filePath, body) ==> d.from == filePath && HasPath(files, d.to)
    ensures |DependenciesOf(files, filePath, body)| <= |body|
    decreases |body|
  {
    if body != [] {
      DependenciesOfEdges(files, filePath, body[1..]);
    }
  }

  /**
   * An edge is produced exactly for an import statement of the file that
   * resolves to a snapshot file; imports that match nothing add nothing.
   */
  lemma {:induction false} DependenciesOfIff(files: seq<CodeFile>, filePath: string, body: seq<Node>, d: Dependency)
    ensures d in DependenciesOf(files, filePath, body) <==>
            d.from == filePath && exists i :: 0 <= i < |body| && ImportTarget(files, filePath, body[i]) == Some(d.to)
    decreases |body|
  {
    if body != [] {
      assert DependenciesOf(files, filePath, body)
             == EdgesOf(files, filePath, body[0]) + DependenciesOf(files, filePath, body[1..]);
      EdgesOfIff(files, filePath, body[0], d);
      DependenciesOfIff(files, filePath, body[1..], d);
      ImportTargetCons(files, filePath, body, Some(d.to));
    }
  }

  /** Some statement of a non-empty body resolves to `target` exactly when its first one or one of the rest does. */
  lemma ImportTargetCons(files: seq<CodeFile>, filePath: string, body: seq<Node>, target: Option<string>)
    requires body != []
    ensures (exists i :: 0 <= i < |body| && ImportTarget(files, filePath, body[i]) == target)
            <==> ImportTarget(files, filePath, body[0]) == target
                 || exists i :: 0 <= i < |body[1..]| && ImportTarget(files, filePath, body[1..][i]) == target
  {
    if exists i :: 0 <= i < |body| && ImportTarget(files, filePath, body[i]) == target {
      var i :| 0 <= i < |body| && ImportTarget(files, filePath, body[i]) == target;
      if i > 0 { assert body[1..][i - 1] == body[i]; }
    }
    if exists i :: 0 <= i < |body[1..]| && ImportTarget(files, filePath, body[1..][i]) == target {
      var i :| 0 <= i < |body[1..]| && ImportTarget(files, filePath, body[1..][i]) == target;
      assert body[i + 1] == body[1..][i];
    }
  }

  /** A single statement gives the edge `d` exactly when it is an import of the file resolving to `d.to`. */
  lemma EdgesOfIff(files: seq<CodeFile>, filePath: string, node: Node, d: Dependency)
    ensures d in EdgesOf(files, filePath, node) <==> d.from == filePath && ImportTarget(files, filePath, node) == Some(d.to)
  {
  }

  /** Segments are processed left to right, so resolving in two halves is resolving all. */
  lemma {:induction false} ApplySegmentsAppend(pathParts: seq<string>, a: seq<string>, b: seq<string>)
    ensures ApplySegments(pathParts, a + b) == ApplySegments(ApplySegments(pathParts, a), b)
    decreases |a|
  {
    if a != [] {
      assert (a + b)[0] == a[0];
      assert (a + b)[1..] == a[1..] + b;
      ApplySegmentsAppend(ResolveStep(pathParts, a[0]), a[1..], b);
      assert ApplySegments(pathParts, a + b) == ApplySegments(ResolveStep(pathParts, a[0]), a[1..] + b);
    } else {
      assert a + b == b;
    }
  }

  /** Segments other than "." and ".." are appended as they are (package names included). */
  lemma {:induction false} ApplyPlainSegments(pathParts: seq<string>, parts: seq<string>)
    requires forall i :: 0 <= i < |parts| ==> parts[i] != "." && parts[i] != ".."
    ensures ApplySegments(pathParts, parts) == pathParts + parts
    decreases |parts|
  {
    if parts != [] {
      ApplyPlainSegments(pathParts + [parts[0]], parts[1..]);
      assert pathParts + [parts[0]] + parts[1..] == pathParts + parts;
    }
  }

  /** ".." at the root is a no-op: popping an empty list leaves it empty. */
  lemma DotDotAtRoot(parts: seq<string>)
    ensures ApplySegments([], [".."] + parts) == ApplySegments([], parts)
  {
    assert ([".."] + parts)[1..] == parts;
  }

  lemma {:induction false} JoinAppend(parts: seq<string>, x: string, sep: char)
    requires |parts| >= 1
    ensures Join(parts + [x], sep) == Join(parts, sep) + [sep] + x
    decreases |parts|
  {
    if |parts| > 1 {
      JoinAppend(parts[1..], x, sep);
      assert (parts + [x])[1..] == parts[1..] + [x];
    }
  }

  lemma NoTsAfterDotSlash(name: string)
    requires !HasTs(name)
    ensures !HasTs("./" + name)
  {
    var s := "./" + name;
    assert s[1] == '/';
    forall i: nat | i < |s| ensures !TsAt(s, i) {
      if i >= 2 && TsAt(s, i) {
        assert s[i] == name[i - 2] && s[i + 1] == name[i - 1] && s[i + 2] == name[i];
        assert TsAt(name, i - 2);
      }
    }
  }

  /**
   * A sibling import `./name.ts` (or `./name.tsx`) resolves, from any
   * importer, to the importer's directory followed by `/name.ts`.
   */
  lemma ResolveSiblingImport(filePath: string, name: string, ext: string)
    requires ext == ".ts" || ext == ".tsx"
    requires name != "." && name != ".." && '/' !in name && !HasTs(name)
    ensures ResolvedPath(filePath, "./" + name + ext) == BasePath(filePath) + "/" + name + ".ts"
  {
    var base := BasePath(filePath);
    NoTsAfterDotSlash(name);
    StripTrailingExtension("./" + name, ext);
    assert "./" + name + ext == ("./" + name) + ext;
    assert Join([".", name], '/') == "./" + name by {
      assert [".", name][1..] == [name];
    }
    SplitJoin([".", name], '/');
    var start := Split(base, '/');
    assert ApplySegments(start, [".", name]) == start + [name] by {
      assert [".", name][1..] == [name];
      ApplyPlainSegments(start, [name]);
    }
    JoinAppend(start, name, '/');
    JoinSplit(base, '/');
  }

  /**
   * A parent import `../pkg/name.ts` from `dir/sub/file` climbs out of `sub`
   * and lands in `dir/pkg/name.ts` (Settings.tsx importing '../api/client.ts'
   * from src/components resolves to src/api/client.ts).
   */
  lemma ResolveParentImport(dir: string, sub: string, file: string, pkg: string, name: string, ext: string)
    requires ext == ".ts" || ext == ".tsx"
    requires '/' !in dir && '/' !in sub && '/' !in file && '/' !in pkg && '/' !in name
    requires pkg != "." && pkg != ".." && name != "." && name != ".."
    requires !HasTs(pkg) && !HasTs(name)
    ensures ResolvedPath(dir + "/" + sub + "/" + file, "../" + pkg + "/" + name + ext)
            == dir + "/" + pkg + "/" + name + ".ts"
  {
    var fp := dir + "/" + sub + "/" + file;
    BasePathOfNested(dir, sub, file);
    SplitTwo(dir, sub);
    var spec := "../" + pkg + "/" + name;
    assert !HasTs("..");
    NoTsAcrossSlash("..", pkg);
    assert ".." + "/" + pkg == "../" + pkg by { assert ".." + "/" == "../"; }
    NoTsAcrossSlash("../" + pkg, name);
    StripTrailingExtension(spec, ext);
    SplitThree("..", pkg, name);
    ParentSegments(dir, sub, pkg, name);
    JoinThree(dir, pkg, name);
  }

  lemma BasePathOfNested(dir: string, sub: string, file: string)
    requires '/' !in dir && '/' !in sub && '/' !in file
    ensures BasePath(dir + "/" + sub + "/" + file) == dir + "/" + sub
  {
    var fp := dir + "/" + sub + "/" + file;
    var k := |dir| + 1 + |sub|;
    assert fp[k] == '/';
    forall j | k < j < |fp| ensures fp[j] != '/' {
      assert fp[j] == file[j - k - 1];
    }
    LastIndexOfAt(fp, '/', k);
    assert fp[..k] == dir + "/" + sub;
  }

  /** ".ts" cannot straddle a '/', so it occurs in `x + "/" + y` only if it occurs in one side. */
  lemma NoTsAcrossSlash(x: string, y: string)
    requires !HasTs(x) && !HasTs(y)
    ensures !HasTs(x + "/" + y)
  {
    var s := x + "/" + y;
    assert s[|x|] == '/';
    forall i: nat | i < |s| ensures !TsAt(s, i) {
      if i + 3 <= |x| {
        assert !TsAt(x, i);
        assert s[i] == x[i] && s[i + 1] == x[i + 1] && s[i + 2] == x[i + 2];
      } else if i > |x| && i + 3 <= |s| {
        var j: nat := i - |x| - 1;
        assert !TsAt(y, j);
        assert s[i] == y[j] && s[i + 1] == y[j + 1] && s[i + 2] == y[j + 2];
      }
    }
  }

  lemma ParentSegments(dir: string, sub: string, pkg: string, name: string)
    requires pkg != "." && pkg != ".." && name != "." && name != ".."
    ensures ApplySegments([dir, sub], ["..", pkg, name]) == [dir, pkg, name]
  {
    assert ["..", pkg, name][1..] == [pkg, name];
    assert [dir, sub][..1] == [dir];
    ApplyPlainSegments([dir], [pkg, name]);
  }

  lemma SplitTwo(a: string, b: string)
    requires '/' !in a && '/' !in b
    ensures Split(a + "/" + b, '/') == [a, b]
  {
    assert Join([a, b], '/') == a + "/" + b by { assert [a, b][1..] == [b]; }
    SplitJoin([a, b], '/');
  }

  lemma SplitThree(a: string, b: string, c: string)
    requires '/' !in a && '/' !in b && '/' !in c
    ensures Split(a + "/" + b + "/" + c, '/') == [a, b, c]
  {
    JoinThree(a, b, c);
    SplitJoin([a, b, c], '/');
  }

  lemma JoinThree(a: string, b: string, c: string)
    ensures Join([a, b, c], '/') == a + "/" + b + "/" + c
  {
    assert [a, b, c][1..] == [b, c];
    assert [b, c][1..] == [c];
    assert Join([b, c], '/') == b + "/" + c;
    assert a + "/" + (b + "/" + c) == a + "/" + b + "/" + c;
  }

  /**
   * Without a '/' in the importer's path the base is "", so a sibling import
   * `./name` resolves to `/name.ts`, with a leading '/' (`./util` from
   * `main.ts` gives `/util.ts`).
   */
  lemma ResolveFromTopLevelFile(filePath: string, name: string)
    requires '/' !in filePath
    requires name != "." && name != ".." && '/' !in name && !HasTs(name)
    ensures ResolvedPath(filePath, "./" + name) == "/" + name + ".ts"
  {
    assert BasePath(filePath) == "";
    DotSlashSegments(name);
    RootSiblingJoin(name);
  }

  /** `./name` (no ".ts" in it) splits into "." and the name. */
  lemma DotSlashSegments(name: string)
    requires '/' !in name && !HasTs(name)
    ensures Split(StripTsExtension("./" + name), '/') == [".", name]
  {
    NoTsAfterDotSlash(name);
    StripWithoutTs("./" + name);
    assert Join([".", name], '/') == "./" + name by {
      assert [".", name][1..] == [name];
    }
    SplitJoin([".", name], '/');
  }

  /** From the empty base, "." then a name give the path "/name". */
  lemma RootSiblingJoin(name: string)
    requires name != "." && name != ".."
    ensures Join(ApplySegments([""], [".", name]), '/') == "/" + name
  {
    assert ApplySegments([""], [".", name]) == ["", name] by {
      assert [".", name][1..] == [name];
      ApplyPlainSegments([""], [name]);
    }
    assert ["", name][1..] == [name];
  }
}
