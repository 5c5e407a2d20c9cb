// Pattern-against-pattern overlap on a repository's real files, known by every name they answer to.
module FileIndexes {
  import opened Wrappers
  import opened PyStrings
  import opened Globs
  import opened PosixPaths
  import opened ScopePaths
  import opened LockReaders

  /** A symlink, and the real directory it reaches. */
  datatype DirAlias = DirAlias(link: string, target: string)

  datatype FileIndex = FileIndex(names: map<string, string>, dirAliases: seq<DirAlias>,
                                 resolve: string -> string, aliases: map<string, seq<string>>)

  // `lock_file_matcher(pattern, root)`: the union of the two enforcement readers.
  predicate Matches(pattern: string, root: string, rel: string) {
    ScopeMatches(rel, pattern, root) || ReaderCovers(PlaceQuery(rel, root), PlaceLock(pattern, root))
  }

  // ---------------------------------------------------------------- building the index

  /** `f` is listed under its own name, under the aliased directory, and `k` is its alias name. */
  predicate AliasName(names: map<string, string>, d: DirAlias, f: string, k: string) {
    f in names && names[f] == f && HasPrefix(f, d.target + "/") && k == d.link + f[|d.target|..]
  }

  ghost predicate HasAliasName(names: map<string, string>, d: DirAlias, k: string) {
    exists f :: AliasName(names, d, f, k)
  }

  /** `out` is `names` plus, for each aliased directory in turn, the names not taken yet. */
  ghost predicate Expanded(names: map<string, string>, dirs: seq<DirAlias>, out: map<string, string>) {
    && (forall k :: k in names ==> k in out && out[k] == names[k])
    && (forall k :: k in out && k !in names ==>
          exists i :: AddedAt(names, dirs, i, out[k], k))
    && (forall i, f, k :: 0 <= i < |dirs| && AliasName(names, dirs[i], f, k) ==> k in out)
  }

  lemma AliasNameOfOneFile(names: map<string, string>, d: DirAlias, f: string, g: string, k: string)
    requires AliasName(names, d, f, k) && AliasName(names, d, g, k)
    ensures f == g
  {
    var n := |d.target|;
    assert f[n..] == k[|d.link|..] == g[n..];
    assert f[..n] == f[..n + 1][..n] == (d.target + "/")[..n] == g[..n + 1][..n];
    assert f == f[..n] + f[n..] && g == g[..n] + g[n..];
  }

  /** The description determines the result: which names are added, and for which file. */
  lemma ExpandedIsUnique(names: map<string, string>, dirs: seq<DirAlias>, out: map<string, string>,
                         other: map<string, string>)
    requires Expanded(names, dirs, out) && Expanded(names, dirs, other)
    ensures out == other
  {
    forall k | k in out ensures k in other && other[k] == out[k] {
      if k !in names {
        var i :| AddedAt(names, dirs, i, out[k], k);
        assert k in other;
        var j :| AddedAt(names, dirs, j, other[k], k);
        assert HasAliasName(names, dirs[i], k) && HasAliasName(names, dirs[j], k);
        AliasNameOfOneFile(names, dirs[i], out[k], other[k], k);
      }
    }
    forall k | k in other ensures k in out {
      if k !in names {
        var j :| AddedAt(names, dirs, j, other[k], k);
      }
    }
  }

  /** The listed files other than `todo` have their alias names under `d`, and nothing else was added. */
  ghost predicate PassDone(before: map<string, string>, d: DirAlias, todo: set<string>, out: map<string, string>) {
    && (forall k :: k in before ==> k in out && out[k] == before[k])
    && (forall k :: k in out && k !in before ==> AliasName(before, d, out[k], k))
    && (forall f, k :: f !in todo && AliasName(before, d, f, k) ==> k in out)
  }

  /** The alias expansion of `_build_index`, for symlinks that do not point at themselves. */
  method ExpandAliases(names: map<string, string>, dirs: seq<DirAlias>) returns (out: map<string, string>)
    requires forall d :: d in dirs ==> d.link != d.target
    ensures Expanded(names, dirs, out)
  {
    out := names;
    for i := 0 to |dirs|
      invariant Expanded(names, dirs[..i], out)
    {
      var d := dirs[i];
      assert d in dirs;
      ghost var before := out;
      SelfNamesKept(names, dirs[..i], before);
      var todo := out.Keys;
      while todo != {}
        invariant todo <= before.Keys
        invariant PassDone(before, d, todo, out)
        decreases |todo|
      {
        var f :| f in todo;
        todo := todo - {f};
        if out[f] == f && HasPrefix(f, d.target + "/") {
          var k := d.link + f[|d.target|..];
          assert AliasName(before, d, f, k);
          if k !in out {
            out := out[k := f];
          }
        }
      }
      PassExtends(names, dirs, i, before, out);
    }
    assert dirs[..|dirs|] == dirs;
  }

  /** Added names are never the file's own name, so the self-named files stay the listed ones. */
  lemma SelfNamesKept(names: map<string, string>, dirs: seq<DirAlias>, out: map<string, string>)
    requires Expanded(names, dirs, out) && forall d :: d in dirs ==> d.link != d.target
    ensures forall f :: f in out && f !in names ==> out[f] != f
    ensures forall d, f, k :: AliasName(out, d, f, k) <==> AliasName(names, d, f, k)
  {
    forall f | f in out && f !in names ensures out[f] != f {
      var i :| AddedAt(names, dirs, i, out[f], f);
    }
  }

  /** `k` was added for `f` by the `i`-th directory, and by none before it. */
  ghost predicate AddedAt(names: map<string, string>, dirs: seq<DirAlias>, i: int, f: string, k: string) {
    0 <= i < |dirs| && AliasName(names, dirs[i], f, k)
    && forall j :: 0 <= j < i ==> !HasAliasName(names, dirs[j], k)
  }

  lemma PassExplained(names: map<string, string>, dirs: seq<DirAlias>, i: nat,
                      before: map<string, string>, k: string, f: string)
    requires i < |dirs| && Expanded(names, dirs[..i], before)
    requires k !in names && (if k in before then before[k] == f else AliasName(names, dirs[i], f, k))
    ensures var now := dirs[..i + 1]; exists m :: AddedAt(names, now, m, f, k)
  {
    var now := dirs[..i + 1];
    assert forall j :: 0 <= j < i ==> now[j] == dirs[..i][j];
    if k in before {
      var m :| AddedAt(names, dirs[..i], m, before[k], k);
      assert AddedAt(names, now, m, f, k);
    } else {
      forall j, g | 0 <= j < i ensures !AliasName(names, now[j], g, k) {
        assert AliasName(names, dirs[..i][j], g, k) ==> k in before;
      }
      assert AddedAt(names, now, i, f, k);
    }
  }

  lemma PassExtends(names: map<string, string>, dirs: seq<DirAlias>, i: nat,
                    before: map<string, string>, out: map<string, string>)
    requires i < |dirs| && Expanded(names, dirs[..i], before) && PassDone(before, dirs[i], {}, out)
    requires forall d, f, k :: AliasName(before, d, f, k) <==> AliasName(names, d, f, k)
    ensures Expanded(names, dirs[..i + 1], out)
  {
    var now := dirs[..i + 1];
    forall k | k in out && k !in names ensures exists m :: AddedAt(names, now, m, out[k], k) {
      PassExplained(names, dirs, i, before, k, out[k]);
    }
    forall j, f, k | 0 <= j <= i && AliasName(names, dirs[j], f, k) ensures k in out {
      if j < i {
        assert AliasName(names, dirs[..i][j], f, k);
      } else {
        assert AliasName(before, dirs[i], f, k);
      }
    }
  }

  /** `FileIndex.aliases`: for each real file, its names other than itself, each once. */
  ghost predicate AliasesOf(names: map<string, string>, done: set<string>, aliases: map<string, seq<string>>) {
    && (forall file :: file in aliases ==>
          forall n :: n in aliases[file] <==> n in done && n in names && n != file && names[n] == file)
    && (forall n :: n in done && n in names && n != names[n] ==> names[n] in aliases)
  }

  method BuildAliases(names: map<string, string>) returns (aliases: map<string, seq<string>>)
    ensures AliasesOf(names, names.Keys, aliases)
  {
    aliases := map[];
    var todo := names.Keys;
    while todo != {}
      invariant todo <= names.Keys
      invariant AliasesOf(names, names.Keys - todo, aliases)
      decreases |todo|
    {
      var n :| n in todo;
      var file := names[n];
      todo := todo - {n};
      if n != file {
        var sofar := if file in aliases then aliases[file] else [];
        assert forall m :: m in sofar + [n] <==> m in sofar || m == n;
        aliases := aliases[file := sofar + [n]];
      }
    }
    assert names.Keys - {} == names.Keys;
  }

  ghost predicate Built(index: FileIndex) {
    AliasesOf(index.names, index.names.Keys, index.aliases)
  }

  // ---------------------------------------------------------------- the names of a file

  /** `n` is a name of the file `real` */
  predicate IsNameOf(index: FileIndex, file: string, n: string) {
    || n == file
    || (file in index.aliases && n in index.aliases[file])
    || exists d :: d in index.dirAliases && IsLinkName(d, file, n)
  }

  predicate IsLinkName(d: DirAlias, file: string, n: string) {
    HasPrefix(file, d.target + "/") && n == d.link + file[|d.target|..]
  }

  method NamesOf(index: FileIndex, file: string) returns (out: set<string>)
    ensures forall n :: n in out <==> IsNameOf(index, file, n)
  {
    out := {file} + if file in index.aliases then set n | n in index.aliases[file] else {};
    ghost var base := out;
    for i := 0 to |index.dirAliases|
      invariant forall n :: n in out <==>
        (n in base || exists j :: 0 <= j < i && IsLinkName(index.dirAliases[j], file, n))
    {
      var d := index.dirAliases[i];
      if HasPrefix(file, d.target + "/") {
        out := out + {d.link + file[|d.target|..]};
      }
    }
  }

  // ---------------------------------------------------------------- overlap

  /** Whether a pattern covers a name: `lock_file_matcher(pattern, root)(name)`. */
  type Matcher = (string, string) -> bool

  predicate CoversReal(m: Matcher, pattern: string, file: string, index: FileIndex) {
    exists n :: n in AllNames(index, file) && m(pattern, n)
  }

  function AllNames(index: FileIndex, file: string): (names: set<string>)
    ensures forall n :: n in names <==> IsNameOf(index, file, n)
  {
    {file} + (if file in index.aliases then set n | n in index.aliases[file] else {})
    + set d | d in index.dirAliases && HasPrefix(file, d.target + "/") :: d.link + file[|d.target|..]
  }

  function MatchingFiles(m: Matcher, pattern: string, index: FileIndex): set<string> {
    set n | n in index.names && m(pattern, n) :: index.names[n]
  }

  function LiteralTarget(pattern: string, root: string): string {
    var canon := CanonicalPattern(pattern, root);
    if canon == "" || HasPrefix(canon, "/") || !IsLiteral(canon) then "" else canon
  }

  /** A file not created yet, named exactly by one pattern and covered by the other. */
  predicate NewFileHit(m: Matcher, literal: string, other: string, index: FileIndex) {
    literal != "" && literal !in index.names
    && (m(other, literal) || CoversReal(m, other, index.resolve(literal), index))
  }

  predicate CommonFile(m: Matcher, a: string, b: string, index: FileIndex) {
    exists file :: file in MatchingFiles(m, a, index) && CoversReal(m, b, file, index)
  }

  predicate PatternsOverlap(m: Matcher, a: string, b: string, files: Option<FileIndex>, root: string) {
    if a == b || Fnmatch(a, b) || Fnmatch(b, a) then true
    else
      match files
      case None => AlgebraicOverlap(CanonicalPattern(a, root), CanonicalPattern(b, root))
      case Some(index) =>
        || CommonFile(m, a, b, index)
        || NewFileHit(m, LiteralTarget(a, root), b, index)
        || NewFileHit(m, LiteralTarget(b, root), a, index)
  }

  // `_absolute_overlap`, on the absolute forms of both patterns; None is "everywhere".
  predicate AbsoluteOverlap(a: Option<seq<string>>, b: Option<seq<string>>) {
    if a.None? || b.None? then true
    else exists x, y :: x in a.value && y in b.value
                        && (x == y || Fnmatch(x, y) || Fnmatch(y, x) || AlgebraicOverlap(x, y))
  }

  /** Every name of a covered file leads back to the file, and is listed. */
  ghost predicate Closed(index: FileIndex) {
    forall n, x :: n in index.names && IsNameOf(index, index.names[n], x) ==>
      x in index.names && index.names[x] == index.names[n]
  }

  /** Overlap on a built index never misses: two listed names of one real file, one covered by each
      pattern, are enough. */
  lemma IndexedOverlapComplete(m: Matcher, a: string, b: string, index: FileIndex, root: string, x: string, y: string)
    requires Built(index)
    requires x in index.names && y in index.names && index.names[x] == index.names[y]
    requires m(a, x) && m(b, y)
    ensures PatternsOverlap(m, a, b, Some(index), root) && PatternsOverlap(m, b, a, Some(index), root)
  {
    CommonByListedNames(m, a, b, index, x, y);
    CommonByListedNames(m, b, a, index, y, x);
  }

  lemma CommonByListedNames(m: Matcher, a: string, b: string, index: FileIndex, x: string, y: string)
    requires Built(index)
    requires x in index.names && y in index.names && index.names[x] == index.names[y]
    requires m(a, x) && m(b, y)
    ensures CommonFile(m, a, b, index)
  {
    var file := index.names[x];
    assert file in MatchingFiles(m, a, index);
    assert y == file || y in index.aliases[file];
    assert IsNameOf(index, file, y) && y in AllNames(index, file);
    assert CoversReal(m, b, file, index);
  }

  /** The pattern names one path of the repository, exactly, that is not listed: a file not created yet. */
  predicate NamesNewFile(pattern: string, path: string, index: FileIndex, root: string) {
    && path == CanonicalPattern(pattern, root) && path != "" && path[0] != '/'
    && (forall k :: 0 <= k < |path| ==> path[k] !in "*?[]") && path !in index.names
  }

  /** The pattern covers that path, or some name of the file it would really be. */
  ghost predicate CoversNewFile(m: Matcher, pattern: string, path: string, index: FileIndex) {
    m(pattern, path) || exists y :: IsNameOf(index, index.resolve(path), y) && m(pattern, y)
  }

  /** With an index two patterns overlap in exactly these cases: they are equal, one fnmatches the other,
      a listed name covered by the first leads to a file with a name the second covers, or one names a
      file not created yet that the other covers. */
  lemma IndexedOverlapExact(m: Matcher, a: string, b: string, index: FileIndex, root: string)
    ensures PatternsOverlap(m, a, b, Some(index), root) <==>
              || a == b || Fnmatch(a, b) || Fnmatch(b, a)
              || (exists x, y :: x in index.names && m(a, x) && IsNameOf(index, index.names[x], y) && m(b, y))
              || (exists p :: NamesNewFile(a, p, index, root) && CoversNewFile(m, b, p, index))
              || (exists p :: NamesNewFile(b, p, index, root) && CoversNewFile(m, a, p, index))
  {
    NewFileIs(m, a, b, index, root);
    NewFileIs(m, b, a, index, root);
    if CommonFile(m, a, b, index) { var x, y := CommonFileNames(m, a, b, index); }
    if x, y :| x in index.names && m(a, x) && IsNameOf(index, index.names[x], y) && m(b, y) {
      CommonByNames(m, a, b, index, x, y);
    }
  }

  lemma NewFileIs(m: Matcher, a: string, b: string, index: FileIndex, root: string)
    ensures NewFileHit(m, LiteralTarget(a, root), b, index)
       <==> exists p :: NamesNewFile(a, p, index, root) && CoversNewFile(m, b, p, index)
  {
    var path := CanonicalPattern(a, root);
    if path != "" {
      if path[0] == '/' { SlashesArePrefix(path); }
      if HasPrefix(path, "/") { PrefixHead(path, "/"); }
      CoversRealIs(m, b, index.resolve(path), index);
      assert NamesNewFile(a, path, index, root) <==> LiteralTarget(a, root) == path && path !in index.names;
    }
  }

  lemma CoversRealIs(m: Matcher, pattern: string, file: string, index: FileIndex)
    ensures CoversReal(m, pattern, file, index) <==> exists y :: IsNameOf(index, file, y) && m(pattern, y)
  {
    assert forall y :: y in AllNames(index, file) <==> IsNameOf(index, file, y);
  }

  /** A link reached only from outside the listing still counts: a name the index gives a file covers it. */
  lemma IndexedOverlapByAnyName(m: Matcher, a: string, b: string, index: FileIndex, root: string, x: string, y: string)
    requires x in index.names && m(a, x) && IsNameOf(index, index.names[x], y) && m(b, y)
    ensures PatternsOverlap(m, a, b, Some(index), root)
  {
    CommonByNames(m, a, b, index, x, y);
  }

  lemma CommonFileNames(m: Matcher, a: string, b: string, index: FileIndex) returns (x: string, y: string)
    requires CommonFile(m, a, b, index)
    ensures Shares(index, x, y) && m(a, x) && m(b, y)
  {
    var file :| file in MatchingFiles(m, a, index) && CoversReal(m, b, file, index);
    x :| x in index.names && m(a, x) && index.names[x] == file;
    y :| y in AllNames(index, file) && m(b, y);
  }

  /** `n` is listed, and `x` is a name of the file it leads to. */
  predicate Shares(index: FileIndex, n: string, x: string) {
    n in index.names && IsNameOf(index, index.names[n], x)
  }

  /** Names lead both ways: a name of a listed name's file is listed, and its own file answers to the
      first name too. */
  ghost predicate Reversible(index: FileIndex) {
    forall n, x :: Shares(index, n, x) ==> Shares(index, x, n)
  }

  /** Two names of one file, one covered by each pattern. */
  lemma CommonByNames(m: Matcher, a: string, b: string, index: FileIndex, x: string, y: string)
    requires Shares(index, x, y) && m(a, x) && m(b, y)
    ensures CommonFile(m, a, b, index)
  {
    var file := index.names[x];
    assert file in MatchingFiles(m, a, index) && y in AllNames(index, file);
    assert CoversReal(m, b, file, index);
  }

  lemma CommonFileFlips(m: Matcher, a: string, b: string, index: FileIndex)
    requires Reversible(index) && CommonFile(m, a, b, index)
    ensures CommonFile(m, b, a, index)
  {
    var x, y := CommonFileNames(m, a, b, index);
    CommonByNames(m, b, a, index, y, x);
  }

  lemma IndexedOverlapSymmetric(m: Matcher, a: string, b: string, index: FileIndex, root: string)
    requires Reversible(index)
    ensures PatternsOverlap(m, a, b, Some(index), root) == PatternsOverlap(m, b, a, Some(index), root)
  {
    if CommonFile(m, a, b, index) { CommonFileFlips(m, a, b, index); }
    if CommonFile(m, b, a, index) { CommonFileFlips(m, b, a, index); }
  }

  /** A pattern of one name is its own canonical form. */
  lemma OneName(p: string, root: string)
    requires p != "" && p != "." && p != ".." && '/' !in p && NUL !in p && Strip(p) == p
    ensures CanonicalPattern(p, root) == p && RelativePattern(p) && LexicalPattern(p) == p
    ensures LiteralTarget(p, root) == if IsLiteral(p) then p else ""
  {
    SplitNoSep(p, '/');
    assert [p][1..] == [];
    assert NormComps([p], [], false) == NormComps([], [p], false);
    assert Normpath(p) == p;
    assert KeptParts([p]) == [p];
    assert LexicalPattern(p) == p;
  }

  /** A pattern that begins with a glob-free text matches nothing that begins otherwise. */
  lemma Apart(s: string, t: string, q: string)
    requires IsLiteral(t) && t != "" && s != "" && s[0] != t[0]
    ensures !Fnmatch(s, t + q)
  {
    LiteralPrefix(t, q, s);
    if HasPrefix(s, t) { PrefixHead(s, t); }
  }

  predicate IsLetter(c: char) {
    'a' <= c <= 'z'
  }

  lemma LetterStar(c: char, root: string)
    requires IsLetter(c)
    ensures var p := [c, '*']; LiteralTarget(p, root) == "" && !IsLiteral(p)
    ensures var p := [c, '*']; p != "." && p != ".." && '/' !in p && NUL !in p && Strip(p) == p
    ensures [c] + "*" == [c, '*']
  {
    var p := [c, '*'];
    assert IsMeta(p[1]) && p[0] == c;
    assert LStrip(p) == p && RStrip(p) == p;
    OneName(p, root);
  }

  /** Two such patterns match neither each other nor a file by name. */
  lemma LettersApart(c: char, d: char, root: string)
    requires IsLetter(c) && IsLetter(d) && c != d
    ensures var a, b := [c, '*'], [d, '*'];
            && a != b && !Fnmatch(a, b) && !Fnmatch(b, a)
            && LiteralTarget(a, root) == "" && LiteralTarget(b, root) == ""
  {
    var a, b := [c, '*'], [d, '*'];
    assert a[0] == c && b[0] == d;
    LetterStar(c, root);
    LetterStar(d, root);
    Apart(a, [d], "*");
    Apart(b, [c], "*");
  }

  /** A reader by which each of two patterns covers one name. */
  function TwoNames(a: string, x: string, b: string, y: string): Matcher {
    (p, n) => (p == a && n == x) || (p == b && n == y)
  }

  /** The readers tell exactly one name of each pattern: that pair of names leads only one way. */
  lemma OneWay(m: Matcher, a: string, b: string, index: FileIndex, root: string, n: string, x: string)
    requires Shares(index, n, x) && !Shares(index, x, n) && m(a, n) && m(b, x)
    requires forall y, z :: Shares(index, y, z) && m(b, y) && m(a, z) ==> y == x && z == n
    requires a != b && !Fnmatch(a, b) && !Fnmatch(b, a)
    requires LiteralTarget(a, root) == "" && LiteralTarget(b, root) == ""
    ensures PatternsOverlap(m, a, b, Some(index), root) && !PatternsOverlap(m, b, a, Some(index), root)
  {
    CommonByNames(m, a, b, index, n, x);
    if CommonFile(m, b, a, index) {
      var y, z := CommonFileNames(m, b, a, index);
    }
  }

  /** Where names do not lead both ways, some patterns overlap in one order only. */
  lemma OrderMatters(index: FileIndex, root: string) returns (m: Matcher, a: string, b: string)
    requires !Reversible(index)
    ensures PatternsOverlap(m, a, b, Some(index), root) && !PatternsOverlap(m, b, a, Some(index), root)
  {
    var n, x :| Shares(index, n, x) && !Shares(index, x, n);
    LettersApart('a', 'b', root);
    a, b := ['a', '*'], ['b', '*'];
    m := TwoNames(a, n, b, x);
    OneWay(m, a, b, index, root, n, x);
  }

  /** Indexed overlap is independent of the argument order, for every reader and every two patterns,
      exactly when names lead both ways. */
  lemma IndexedOrderExact(index: FileIndex, root: string)
    ensures Reversible(index) <==>
            forall m: Matcher, a, b ::
              PatternsOverlap(m, a, b, Some(index), root) == PatternsOverlap(m, b, a, Some(index), root)
  {
    if Reversible(index) {
      forall m: Matcher, a, b
        ensures PatternsOverlap(m, a, b, Some(index), root) == PatternsOverlap(m, b, a, Some(index), root)
      {
        IndexedOverlapSymmetric(m, a, b, index, root);
      }
    } else {
      var m, a, b := OrderMatters(index, root);
      assert PatternsOverlap(m, a, b, Some(index), root) != PatternsOverlap(m, b, a, Some(index), root);
    }
  }

  lemma ListedName(index: FileIndex, n: string)
    requires Built(index) && n in index.names
    ensures IsNameOf(index, index.names[n], n)
  {
  }

  /** A closed index is one whose names lead both ways. */
  lemma ClosedIsReversible(index: FileIndex)
    requires Built(index) && Closed(index)
    ensures Reversible(index)
  {
    forall n, x | Shares(index, n, x) ensures Shares(index, x, n) {
      ListedName(index, n);
    }
  }

  /** The enforcement readers themselves, under a repository root or none. */
  function Readers(root: string): Matcher {
    (p, n) => Matches(p, root, n)
  }

  /** The readers can place paths under the root. */
  predicate Placeable(root: string) {
    LexicalRoot(root).Some? && NUL !in root
  }

  /** A pattern already in canonical form, other than the edit hook's directory forms. */
  predicate TextPattern(p: string) {
    && RelativePattern(p) && CanonicalPattern(p, "") == p && LexicalPattern(p) == p
    && !HasSuffix(p, "/**") && !HasSuffix(p, "/*")
  }

  lemma ReadersAreFnmatch(p: string, n: string, root: string)
    requires IsCanonical(n) && Strip(n) == n && TextPattern(p) && Placeable(root)
    ensures Readers(root)(p, n) <==> Fnmatch(n, p)
  {
    CoverageIsFnmatch(n, p, root);
  }

  lemma OneNameText(p: string)
    requires p != "" && p != "." && p != ".." && '/' !in p && NUL !in p && Strip(p) == p
    ensures TextPattern(p)
  {
    OneName(p, "");
    if HasSuffix(p, "/**") { SuffixHead(p, "/**"); }
    if HasSuffix(p, "/*") { SuffixHead(p, "/*"); }
  }

  lemma SuffixHead(s: string, suffix: string)
    requires HasSuffix(s, suffix) && suffix != ""
    ensures suffix[0] in s
  {
    assert s[|s| - |suffix|] == suffix[0];
  }

  lemma LetterStarMatches(c: char, n: string)
    requires IsLetter(c) && n != ""
    ensures Fnmatch(n, [c] + "*") <==> n[0] == c
  {
    if n[0] == c {
      LiteralPrefix([c], "*", n);
      StarMatchesAll(n[1..]);
    } else {
      Apart(n, [c], "*");
    }
  }

  /** A letter and a star cover the canonical paths that begin with the letter. */
  lemma LetterStarReads(c: char, n: string)
    requires IsLetter(c) && n != "" && IsCanonical(n) && Strip(n) == n
    ensures Readers("")([c, '*'], n) <==> n[0] == c
  {
    LetterStar(c, "");
    OneNameText([c, '*']);
    ReadersAreFnmatch([c, '*'], n, "");
    LetterStarMatches(c, n);
  }

  /** It happens to the readers themselves: a link to an unlisted file, which one pattern covers by the
      link and the other by the file. */
  lemma UnlistedLinkExample(index: FileIndex, link: string, file: string)
    requires index.names == map[link := file]
    requires IsCanonical(link) && Strip(link) == link && link != "" && IsLetter(link[0])
    requires IsCanonical(file) && Strip(file) == file && file != "" && IsLetter(file[0]) && file[0] != link[0]
    ensures var a, b := [link[0], '*'], [file[0], '*'];
            PatternsOverlap(Readers(""), a, b, Some(index), "") && !PatternsOverlap(Readers(""), b, a, Some(index), "")
  {
    LetterStarReads(link[0], link);
    LetterStarReads(file[0], file);
    LetterStarReads(file[0], link);
    LettersApart(link[0], file[0], "");
    OneLink(Readers(""), [link[0], '*'], [file[0], '*'], index, "", link, file);
  }

  lemma OneLink(m: Matcher, a: string, b: string, index: FileIndex, root: string, link: string, file: string)
    requires index.names == map[link := file]
    requires m(a, link) && m(b, file) && !m(b, link)
    requires a != b && !Fnmatch(a, b) && !Fnmatch(b, a) && LiteralTarget(a, root) == "" && LiteralTarget(b, root) == ""
    ensures PatternsOverlap(m, a, b, Some(index), root) && !PatternsOverlap(m, b, a, Some(index), root)
  {
    assert Shares(index, link, file);
    CommonByNames(m, a, b, index, link, file);
    assert MatchingFiles(m, b, index) == {};
  }

  ghost predicate AliasNamesLead(names: map<string, string>, index: FileIndex) {
    forall i, f, k :: 0 <= i < |index.dirAliases| && AliasName(names, index.dirAliases[i], f, k) ==>
      k in index.names && index.names[k] == f
  }

  /** A listing whose every name leads to a listed file. */
  ghost predicate Listing(names: map<string, string>) {
    forall n :: n in names ==> names[n] in names && names[names[n]] == names[n]
  }

  lemma ExpandedFiles(names: map<string, string>, dirs: seq<DirAlias>, out: map<string, string>, n: string)
    requires Expanded(names, dirs, out) && Listing(names) && n in out
    ensures out[n] in names && names[out[n]] == out[n]
  {
    if n !in names {
      var i :| AddedAt(names, dirs, i, out[n], n);
    }
  }

  lemma TakenImpliesLeadsBack(names: map<string, string>, index: FileIndex, n: string, x: string)
    requires Expanded(names, index.dirAliases, index.names) && Built(index) && Listing(names)
    requires AliasNamesLead(names, index)
    requires n in index.names && IsNameOf(index, index.names[n], x)
    ensures x in index.names && index.names[x] == index.names[n]
  {
    var file := index.names[n];
    ExpandedFiles(names, index.dirAliases, index.names, n);
    if x != file && !(file in index.aliases && x in index.aliases[file]) {
      var d :| d in index.dirAliases && IsLinkName(d, file, x);
      var i :| 0 <= i < |index.dirAliases| && index.dirAliases[i] == d;
      assert AliasName(names, index.dirAliases[i], file, x);
    }
  }

  /** An expanded listing is closed exactly when every listed name leads to a listed file and no alias
      name was already taken by another file. */
  lemma ExpandedIsClosed(names: map<string, string>, index: FileIndex)
    requires Expanded(names, index.dirAliases, index.names) && Built(index)
    requires forall d :: d in index.dirAliases ==> d.link != d.target
    ensures Closed(index) <==> Listing(names) && AliasNamesLead(names, index)
  {
    if Closed(index) {
      forall n | n in names ensures names[n] in names && names[names[n]] == names[n] {
        assert IsNameOf(index, index.names[n], names[n]);
        SelfNamesKept(names, index.dirAliases, index.names);
      }
      forall i, f, k | 0 <= i < |index.dirAliases| && AliasName(names, index.dirAliases[i], f, k)
        ensures k in index.names && index.names[k] == f
      {
        assert index.dirAliases[i] in index.dirAliases && IsNameOf(index, index.names[f], k);
      }
    }
    if Listing(names) && AliasNamesLead(names, index) {
      forall n, x | n in index.names && IsNameOf(index, index.names[n], x)
        ensures x in index.names && index.names[x] == index.names[n]
      {
        TakenImpliesLeadsBack(names, index, n, x);
      }
    }
  }

  /** Patterns placed in no common repository are compared by absolute form, in either order. */
  lemma AbsoluteOverlapSymmetric(a: Option<seq<string>>, b: Option<seq<string>>)
    ensures AbsoluteOverlap(a, b) == AbsoluteOverlap(b, a)
  {
    if a.Some? && b.Some? {
      forall x, y | x in a.value && y in b.value ensures AlgebraicOverlap(x, y) == AlgebraicOverlap(y, x) {
        AlgebraicSymmetric(x, y);
      }
    }
  }

  /** A file covered by a form of each is never missed. */
  lemma AbsoluteOverlapComplete(a: seq<string>, b: seq<string>, f: string, x: string, y: string)
    requires x in a && y in b
    ensures Covered(f, x) && Covered(f, y) ==> AbsoluteOverlap(Some(a), Some(b))
  {
    if Covered(f, x) && Covered(f, y) { AlgebraicNeverMisses(f, x, y); }
  }
}
