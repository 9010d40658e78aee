/**
 * The JavaScript built-ins on strings and arrays of strings that the
 * analysis engine relies on, with JavaScript's edge cases spelt out:
 * `String.prototype.split` and `Array.prototype.join` with a one-character
 * separator, `lastIndexOf`, `substring` (negative indices clamp to 0),
 * `replace(/\.ts(x)?/, '')` (first occurrence only, not anchored) and the
 * default `Array.prototype.sort` (lexicographic order).
 */
module JsStrings {

  // ---------------------------------------------------------------------
  // split / join
  // ---------------------------------------------------------------------

  /** `s.split(sep)`: the pieces between separators; never empty ("" gives [""]). */
  function Split(s: string, sep: char): (parts: seq<string>)
    ensures |parts| >= 1
    decreases |s|
  {
    if s == [] then [""]
    else
      var rest := Split(s[1..], sep);
      if s[0] == sep then [""] + rest
      else [[s[0]] + rest[0]] + rest[1..]
  }

  /** No piece of a split holds the separator. */
  lemma {:induction false} SplitPiecesFree(s: string, sep: char)
    ensures forall i :: 0 <= i < |Split(s, sep)| ==> sep !in Split(s, sep)[i]
    decreases |s|
  {
    if s != [] {
      SplitPiecesFree(s[1..], sep);
      var rest := Split(s[1..], sep);
      if s[0] != sep {
        var parts := Split(s, sep);
        forall i | 0 <= i < |parts| ensures sep !in parts[i] {
          if i == 0 {
            assert sep !in rest[0];
            assert parts[0] == [s[0]] + rest[0];
          } else {
            assert parts[i] == rest[i];
          }
        }
      }
    }
  }

  /** `parts.join(sep)`. */
  function Join(parts: seq<string>, sep: char): string
    decreases |parts|
  {
    if |parts| == 0 then ""
    else if |parts| == 1 then parts[0]
    else parts[0] + [sep] + Join(parts[1..], sep)
  }

  /** Joining the pieces of a split gives the string back. */
  lemma {:induction false} JoinSplit(s: string, sep: char)
    ensures Join(Split(s, sep), sep) == s
    decreases |s|
  {
    if s != [] {
      JoinSplit(s[1..], sep);
      var rest := Split(s[1..], sep);
      if s[0] == sep {
        assert Split(s, sep) == [""] + rest;
        assert ([""] + rest)[1..] == rest;
      } else {
        var parts := Split(s, sep);
        assert parts == [[s[0]] + rest[0]] + rest[1..];
        if |rest| == 1 {
          assert Join(parts, sep) == [s[0]] + rest[0];
        } else {
          assert parts[1..] == rest[1..];
          assert Join(rest, sep) == rest[0] + [sep] + Join(rest[1..], sep);
        }
      }
    }
  }

  /** Splitting a join of separator-free pieces gives the pieces back. */
  lemma {:induction false} SplitJoin(parts: seq<string>, sep: char)
    requires |parts| >= 1
    requires forall i :: 0 <= i < |parts| ==> sep !in parts[i]
    ensures Split(Join(parts, sep), sep) == parts
    decreases |parts|, |parts[0]|
  {
    if |parts| == 1 {
      SplitWithoutSeparator(parts[0], sep);
    } else if parts[0] == [] {
      var tail := parts[1..];
      SplitJoin(tail, sep);
      assert Join(parts, sep) == [sep] + Join(tail, sep);
      assert ([sep] + Join(tail, sep))[1..] == Join(tail, sep);
      assert [""] + tail == parts;
    } else {
      var c := parts[0][0];
      var shorter := [parts[0][1..]] + parts[1..];
      assert forall i :: 0 <= i < |shorter| ==> sep !in shorter[i] by {
        forall i | 0 <= i < |shorter| ensures sep !in shorter[i] {
          if i > 0 { assert shorter[i] == parts[i]; }
        }
      }
      SplitJoin(shorter, sep);
      JoinFirstChar(parts, sep);
      assert c != sep by { assert c in parts[0]; }
      SplitFirstChar(c, Join(shorter, sep), sep);
      assert [c] + shorter[0] == parts[0];
      assert shorter[1..] == parts[1..];
    }
  }

  /** A join that starts with a non-empty piece starts with that piece's first character. */
  lemma JoinFirstChar(parts: seq<string>, sep: char)
    requires |parts| >= 1 && parts[0] != []
    ensures Join(parts, sep) == [parts[0][0]] + Join([parts[0][1..]] + parts[1..], sep)
  {
    var shorter := [parts[0][1..]] + parts[1..];
    assert shorter[1..] == parts[1..];
    assert parts[0] == [parts[0][0]] + parts[0][1..];
  }

  /** A leading character other than the separator joins the first piece. */
  lemma SplitFirstChar(c: char, s: string, sep: char)
    requires c != sep
    ensures Split([c] + s, sep) == [[c] + Split(s, sep)[0]] + Split(s, sep)[1..]
  {
    assert ([c] + s)[1..] == s;
  }

  lemma {:induction false} SplitWithoutSeparator(s: string, sep: char)
    requires sep !in s
    ensures Split(s, sep) == [s]
    decreases |s|
  {
    if s != [] {
      assert sep !in s[1..] by {
        forall k | 0 <= k < |s[1..]| ensures s[1..][k] != sep { assert s[1..][k] == s[k + 1]; }
      }
      SplitWithoutSeparator(s[1..], sep);
      assert s[0] in s;
      assert [s[0]] + s[1..] == s;
    }
  }

  // ---------------------------------------------------------------------
  // lastIndexOf / substring / the last split piece
  // ---------------------------------------------------------------------

  /** `s.lastIndexOf(c)`: the last index holding `c`, or -1. */
  function LastIndexOf(s: string, c: char): (k: int)
    ensures -1 <= k < |s|
    ensures k >= 0 ==> s[k] == c
    ensures forall j :: k < j < |s| ==> s[j] != c
    decreases |s|
  {
    if s == [] then -1
    else if s[|s| - 1] == c then |s| - 1
    else LastIndexOf(s[..|s| - 1], c)
  }

  /** An index into `s` clamped the way `substring` clamps its arguments. */
  function Clamp(k: int, n: nat): (r: nat)
    ensures r <= n
  {
    if k < 0 then 0 else if k > n then n else k
  }

  /** `s.substring(start, end)`: both ends clamped to [0, |s|] and swapped if reversed. */
  function Substring(s: string, start: int, end: int): string
  {
    var a := Clamp(start, |s|);
    var b := Clamp(end, |s|);
    if a <= b then s[a..b] else s[b..a]
  }

  /** `LastIndexOf` is the index of the last occurrence. */
  lemma LastIndexOfAt(s: string, c: char, k: int)
    requires -1 <= k < |s|
    requires k >= 0 ==> s[k] == c
    requires forall j :: k < j < |s| ==> s[j] != c
    ensures LastIndexOf(s, c) == k
  {
  }

  /** The last piece of `s.split(sep)` is what follows the last separator. */
  lemma LastPieceOfSplit(s: string, sep: char)
    ensures Split(s, sep)[|Split(s, sep)| - 1] == s[LastIndexOf(s, sep) + 1..]
  {
    LastPieceAt(s, sep, LastIndexOf(s, sep));
  }

  /** The last piece of a split is what follows `k`, when `k` is the last separator (or -1 without one). */
  lemma {:induction false} LastPieceAt(s: string, sep: char, k: int)
    requires -1 <= k < |s| && (k >= 0 ==> s[k] == sep)
    requires forall j :: k < j < |s| ==> s[j] != sep
    ensures Split(s, sep)[|Split(s, sep)| - 1] == s[k + 1..]
    decreases |s|
  {
    if k == -1 {
      assert sep !in s;
      SplitWithoutSeparator(s, sep);
      assert s[0..] == s;
    } else if k == 0 {
      LastPieceWithoutTailSeparator(s, sep);
    } else {
      var t := s[1..];
      assert forall j :: k - 1 < j < |t| ==> t[j] != sep by {
        forall j | k - 1 < j < |t| ensures t[j] != sep { assert t[j] == s[j + 1]; }
      }
      LastPieceAt(t, sep, k - 1);
      SplitAtSeparator(t, sep, k - 1);
      LastPieceFromTail(s, sep, k);
    }
  }

  /** A last piece the tail ends with, after at least two pieces, is the whole string's last piece. */
  lemma LastPieceFromTail(s: string, sep: char, k: nat)
    requires 1 <= k < |s|
    requires |Split(s[1..], sep)| > 1
    requires Split(s[1..], sep)[|Split(s[1..], sep)| - 1] == s[1..][k..]
    ensures Split(s, sep)[|Split(s, sep)| - 1] == s[k + 1..]
  {
    LastPieceOfLongSplit(s, sep);
    assert s[k + 1..] == s[1..][k..];
  }

  /** When the tail holds no separator, the last piece is the tail, or the whole string when it holds none either. */
  lemma LastPieceWithoutTailSeparator(s: string, sep: char)
    requires s != [] && sep !in s[1..]
    ensures Split(s, sep)[|Split(s, sep)| - 1] == if s[0] == sep then s[1..] else s
  {
    var t := s[1..];
    var rest := Split(t, sep);
    SplitWithoutSeparator(t, sep);
    assert rest[0] == t && rest[1..] == [];
    var parts := Split(s, sep);
    if s[0] == sep {
      assert parts == [""] + rest;
      assert parts[|parts| - 1] == t;
    } else {
      assert parts == [[s[0]] + rest[0]] + rest[1..];
      assert parts[|parts| - 1] == [s[0]] + t == s;
    }
  }

  /** With at least two pieces in the tail, the last piece is the tail's. */
  lemma LastPieceOfLongSplit(s: string, sep: char)
    requires s != [] && |Split(s[1..], sep)| > 1
    ensures var rest := Split(s[1..], sep);
            Split(s, sep)[|Split(s, sep)| - 1] == rest[|rest| - 1]
  {
    var rest := Split(s[1..], sep);
    var parts := Split(s, sep);
    if s[0] == sep {
      assert parts == [""] + rest;
    } else {
      assert parts == [[s[0]] + rest[0]] + rest[1..];
      assert parts[|parts| - 1] == rest[1..][|rest| - 2];
    }
  }

  /** A separator in the string gives at least two pieces. */
  lemma {:induction false} SplitAtSeparator(s: string, sep: char, k: nat)
    requires k < |s| && s[k] == sep
    ensures |Split(s, sep)| > 1
    decreases |s|
  {
    if s[0] != sep {
      SplitAtSeparator(s[1..], sep, k - 1);
    }
  }

  // ---------------------------------------------------------------------
  // replace(/\.ts(x)?/, '')
  // ---------------------------------------------------------------------

  /** ".ts" starts at index `i` of `s`. */
  predicate TsAt(s: string, i: nat)
  {
    i + 3 <= |s| && s[i] == '.' && s[i + 1] == 't' && s[i + 2] == 's'
  }

  /** `s` contains ".ts" somewhere. */
  predicate HasTs(s: string)
  {
    exists i: nat :: i < |s| && TsAt(s, i)
  }

  /** A name without a '.' holds no ".ts". */
  lemma NoDotNoTs(s: string)
    requires '.' !in s
    ensures !HasTs(s)
  {
  }

  /**
   * `s.replace(/\.ts(x)?/, '')`: the leftmost ".ts" is removed, together with
   * an "x" right after it; nothing else changes, and the match need not be
   * at the end of the string.
   */
  function StripTsExtension(s: string): string
    decreases |s|
  {
    if |s| < 3 then s
    else if TsAt(s, 0) then
      (if |s| > 3 && s[3] == 'x' then s[4..] else s[3..])
    else [s[0]] + StripTsExtension(s[1..])
  }

  lemma NoTsInTail(s: string)
    requires s != [] && !HasTs(s)
    ensures !HasTs(s[1..])
  {
    if HasTs(s[1..]) {
      var i: nat :| i < |s[1..]| && TsAt(s[1..], i);
      assert TsAt(s, i + 1);
    }
  }

  /** Without a ".ts" anywhere, the replacement changes nothing. */
  lemma {:induction false} StripWithoutTs(s: string)
    requires !HasTs(s)
    ensures StripTsExtension(s) == s
    decreases |s|
  {
    if |s| >= 3 {
      assert !TsAt(s, 0);
      NoTsInTail(s);
      StripWithoutTs(s[1..]);
      assert [s[0]] + s[1..] == s;
    }
  }

  /**
   * A trailing ".ts" or ".tsx" is removed exactly when it is the first ".ts"
   * of the string.
   */
  lemma {:induction false} StripTrailingExtension(p: string, ext: string)
    requires ext == ".ts" || ext == ".tsx"
    requires !HasTs(p)
    ensures StripTsExtension(p + ext) == p
    decreases |p|
  {
    var s := p + ext;
    if p == [] {
      assert s == ext;
    } else {
      assert !TsAt(s, 0) by {
        if |p| >= 3 {
          assert !TsAt(p, 0);
        } else if |p| == 2 {
          assert s[2] == '.';
        } else {
          assert s[1] == '.';
        }
      }
      NoTsInTail(p);
      StripTrailingExtension(p[1..], ext);
      assert s[1..] == p[1..] + ext;
      assert [p[0]] + p[1..] == p;
    }
  }

  // ---------------------------------------------------------------------
  // Array.prototype.sort() on strings
  // ---------------------------------------------------------------------

  /** The default comparison of `sort`: lexicographic, character by character. */
  predicate LexLess(a: string, b: string)
    decreases |a|
  {
    if a == [] then b != []
    else if b == [] then false
    else if a[0] != b[0] then a[0] < b[0]
    else LexLess(a[1..], b[1..])
  }

  predicate LexLessEq(a: string, b: string)
  {
    a == b || LexLess(a, b)
  }

  lemma {:induction false} LexLessIrreflexive(a: string)
    ensures !LexLess(a, a)
    decreases |a|
  {
    if a != [] { LexLessIrreflexive(a[1..]); }
  }

  lemma {:induction false} LexLessAsymmetric(a: string, b: string)
    ensures !(LexLess(a, b) && LexLess(b, a))
    decreases |a|
  {
    if a != [] && b != [] && a[0] == b[0] { LexLessAsymmetric(a[1..], b[1..]); }
  }

  lemma {:induction false} LexLessTransitive(a: string, b: string, c: string)
    requires LexLess(a, b) && LexLess(b, c)
    ensures LexLess(a, c)
    decreases |a|
  {
    if a != [] && a[0] == b[0] && b[0] == c[0] {
      LexLessTransitive(a[1..], b[1..], c[1..]);
    }
  }

  lemma {:induction false} LexLessTotal(a: string, b: string)
    ensures a == b || LexLess(a, b) || LexLess(b, a)
    decreases |a|
  {
    if a != [] && b != [] && a[0] == b[0] {
      LexLessTotal(a[1..], b[1..]);
      if a[1..] == b[1..] {
        assert a == [a[0]] + a[1..] && b == [b[0]] + b[1..];
      }
    }
  }

  predicate Sorted(s: seq<string>)
  {
    forall i, j :: 0 <= i < j < |s| ==> LexLessEq(s[i], s[j])
  }

  function Insert(x: string, s: seq<string>): seq<string>
    decreases |s|
  {
    if s == [] then [x]
    else if LexLessEq(x, s[0]) then [x] + s
    else [s[0]] + Insert(x, s[1..])
  }

  /** `[...s].sort()`: a sorted copy. */
  function SortStrings(s: seq<string>): seq<string>
    decreases |s|
  {
    if s == [] then [] else Insert(s[0], SortStrings(s[1..]))
  }

  lemma {:induction false} InsertPermutes(x: string, s: seq<string>)
    ensures multiset(Insert(x, s)) == multiset(s) + multiset{x}
    decreases |s|
  {
    if s != [] && !LexLessEq(x, s[0]) {
      InsertPermutes(x, s[1..]);
      assert s == [s[0]] + s[1..];
    }
  }

  lemma {:induction false} InsertSorted(x: string, s: seq<string>)
    requires Sorted(s)
    ensures Sorted(Insert(x, s))
    decreases |s|
  {
    if s == [] {
    } else if LexLessEq(x, s[0]) {
      forall y | y in s ensures LexLessEq(x, y) {
        SortedHeadIsLeast(s, y);
        if x != s[0] && s[0] != y { LexLessTransitive(x, s[0], y); }
      }
      ConsSorted(x, s);
    } else {
      var tail := s[1..];
      SortedTail(s);
      InsertSorted(x, tail);
      InsertPermutes(x, tail);
      var t := Insert(x, tail);
      LexLessTotal(x, s[0]);
      forall y | y in t ensures LexLessEq(s[0], y) {
        assert y in multiset(t);
        if y != x {
          assert y in multiset(tail);
          var k :| 0 <= k < |tail| && tail[k] == y;
          assert s[k + 1] == y;
        }
      }
      ConsSorted(s[0], t);
    }
  }

  /** Putting a lower bound in front of a sorted list keeps it sorted. */
  lemma ConsSorted(a: string, t: seq<string>)
    requires Sorted(t) && forall y :: y in t ==> LexLessEq(a, y)
    ensures Sorted([a] + t)
  {
    var r := [a] + t;
    forall i, j | 0 <= i < j < |r| ensures LexLessEq(r[i], r[j]) {
      if i == 0 {
        assert r[j] == t[j - 1];
      } else {
        assert r[i] == t[i - 1] && r[j] == t[j - 1];
      }
    }
  }

  /** The sorted copy is sorted and a permutation of the input. */
  lemma {:induction false} SortStringsSpec(s: seq<string>)
    ensures Sorted(SortStrings(s))
    ensures multiset(SortStrings(s)) == multiset(s)
    decreases |s|
  {
    if s != [] {
      SortStringsSpec(s[1..]);
      InsertSorted(s[0], SortStrings(s[1..]));
      InsertPermutes(s[0], SortStrings(s[1..]));
      MultisetOfCons(s);
    }
  }

  lemma MultisetOfCons<T>(s: seq<T>)
    requires s != []
    ensures multiset(s) == multiset(s[1..]) + multiset{s[0]}
  {
    assert s == [s[0]] + s[1..];
  }

  /** The head of a sorted list is below every element. */
  lemma SortedHeadIsLeast(a: seq<string>, x: string)
    requires Sorted(a) && x in multiset(a)
    ensures LexLessEq(a[0], x)
  {
    var i :| 0 <= i < |a| && a[i] == x;
    if i > 0 { }
  }

  lemma SortedTail(a: seq<string>)
    requires Sorted(a) && a != []
    ensures Sorted(a[1..])
  {
    forall x, y | 0 <= x < y < |a[1..]| ensures LexLessEq(a[1..][x], a[1..][y]) {
      assert a[1..][x] == a[x + 1] && a[1..][y] == a[y + 1];
    }
  }

  lemma MultisetTail(a: seq<string>)
    requires a != []
    ensures multiset(a[1..]) == multiset(a) - multiset{a[0]}
  {
    assert a == [a[0]] + a[1..];
  }

  /** Two sorted lists with the same elements are equal. */
  lemma {:induction false} SortedUnique(a: seq<string>, b: seq<string>)
    requires Sorted(a) && Sorted(b)
    requires multiset(a) == multiset(b)
    ensures a == b
    decreases |a|
  {
    assert |a| == |b| by { assert |multiset(a)| == |multiset(b)|; }
    if a != [] {
      SortedHeadsAgree(a, b);
      SortedTail(a);
      SortedTail(b);
      SortedUnique(a[1..], b[1..]);
      SameHeadSameTail(a, b);
    }
  }

  /** Sorted lists with the same elements start with the same element and go on with the same elements. */
  lemma SortedHeadsAgree(a: seq<string>, b: seq<string>)
    requires Sorted(a) && Sorted(b) && a != [] && b != []
    requires multiset(a) == multiset(b)
    ensures a[0] == b[0]
    ensures multiset(a[1..]) == multiset(b[1..])
  {
    assert a[0] in multiset(b) && b[0] in multiset(a);
    SortedHeadIsLeast(b, a[0]);
    SortedHeadIsLeast(a, b[0]);
    LexLessAsymmetric(a[0], b[0]);
    MultisetTail(a);
    MultisetTail(b);
  }

  lemma SameHeadSameTail<T>(a: seq<T>, b: seq<T>)
    requires a != [] && b != [] && a[0] == b[0] && a[1..] == b[1..]
    ensures a == b
  {
    assert a == [a[0]] + a[1..] && b == [b[0]] + b[1..];
  }

  /**
   * Comparing sorted copies compares contents: two lists have the same
   * sorted copy exactly when they hold the same elements, counted with
   * multiplicity, in whatever order.
   */
  lemma SortStringsEqIff(a: seq<string>, b: seq<string>)
    ensures SortStrings(a) == SortStrings(b) <==> multiset(a) == multiset(b)
  {
    SortStringsSpec(a);
    SortStringsSpec(b);
    if multiset(a) == multiset(b) {
      SortedUnique(SortStrings(a), SortStrings(b));
    }
  }
}
