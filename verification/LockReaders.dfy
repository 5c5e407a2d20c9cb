// Which live locks cover a query path: the purely lexical readers of scope_paths.py.
module LockReaders {
  import opened Wrappers
  import opened PyStrings
  import opened Globs
  import opened PosixPaths
  import opened ScopePaths

  const NUL: char := '\0'

  datatype ReaderQuery = ReaderQuery(rawPath: string, rawRoot: string, absolute: string, relative: string, raw: bool)

  datatype ReaderLock = ReaderLock(rawPattern: string, rawRoot: string, root: string, anchored: bool,
                                   pattern: string, relative: string, suffixPattern: string, raw: bool)

  // "" for no root, the normalised absolute root, or None for a root that cannot be placed.
  function LexicalRoot(root: string): Option<string> {
    var s := Strip(root);
    if s == "" then Some("")
    else if !HasPrefix(s, "/") then None
    else Some(AbsoluteForm(s))
  }

  predicate DirectoryForm(text: string) {
    '/' in text && (var last := text[LastSlash(text)..]; last == "" || last == "." || last == "..")
  }

  function AsDirectory(form: string, directory: bool): string {
    if directory && !HasSuffix(form, "/") then form + "/" else form
  }

  function LexicalPattern(text: string): string {
    var lead := if HasPrefix(text, "/") then "/" else "";
    var segments := KeptParts(Split(text, '/'));
    if segments == [] then (if lead != "" then lead else ".")
    else AsDirectory(lead + Join(segments, '/'), DirectoryForm(text))
  }

  function PlaceQuery(path: string, root: string): ReaderQuery {
    var stripped := Strip(path);
    var lex := LexicalRoot(root);
    if stripped == "" || NUL in path || NUL in root || lex.None? then ReaderQuery(path, root, "", "", true)
    else
      var directory := DirectoryForm(stripped);
      if HasPrefix(stripped, "/") then
        ReaderQuery(path, root, AsDirectory(AbsoluteForm(stripped), directory), "", false)
      else
        var rel := Normpath(stripped);
        if rel == "." || rel == ".." || HasPrefix(rel, "../") then ReaderQuery(path, root, "", "", true)
        else if lex.value == "" then ReaderQuery(path, root, "", AsDirectory(rel, directory), false)
        else
          ReaderQuery(path, root, AsDirectory(RStripChar(lex.value, '/') + "/" + rel, directory), "", false)
  }

  function PlaceLock(pattern: string, root: string): ReaderLock {
    var stripped := Strip(pattern);
    var lex := LexicalRoot(root);
    if stripped == "" || NUL in pattern || NUL in root || ".." in Split(stripped, '/') || lex.None? then
      ReaderLock(pattern, root, "", false, "", "", "", true)
    else
      var rel := LexicalPattern(stripped);
      if HasPrefix(rel, "/") then ReaderLock(pattern, root, lex.value, false, rel, rel, "", false)
      else if lex.value == "" then ReaderLock(pattern, root, "", false, rel, rel, "*/" + rel, false)
      else
        AnchoredLock(pattern, root, lex.value, rel)
  }

  function AnchoredLock(pattern: string, root: string, lex: string, rel: string): ReaderLock {
    var base := EscapeLiteral(RStripChar(lex, '/'));
    var placed := if rel == "." then (if base != "" then base else "/") else base + "/" + rel;
    ReaderLock(pattern, root, lex, true, placed, rel, "", false)
  }

  // The reader rule before placement: skip when both roots are set and differ as strings.
  predicate Pre2761Covers(query: ReaderQuery, lock: ReaderLock) {
    var a := RStripChar(query.rawRoot, '/');
    var b := RStripChar(lock.rawRoot, '/');
    if a != "" && b != "" && a != b then false else Fnmatch(query.rawPath, lock.rawPattern)
  }

  function Placed(query: ReaderQuery): string {
    if query.absolute != "" then query.absolute else query.relative
  }

  predicate PlacedCovers(query: ReaderQuery, lock: ReaderLock) {
    if lock.anchored && query.absolute == "" then Fnmatch(query.relative, lock.relative)
    else if HasPrefix(lock.pattern, "/") then Fnmatch(Placed(query), lock.pattern)
    else if query.absolute != "" then
      var tail := LStripChar(query.absolute, '/');
      Fnmatch(tail, lock.pattern) || Fnmatch(tail, lock.suffixPattern)
    else Fnmatch(query.relative, lock.pattern)
  }

  predicate ReaderCovers(query: ReaderQuery, lock: ReaderLock) {
    if query.raw || lock.raw then Pre2761Covers(query, lock)
    else if lock.anchored && query.absolute != ""
            && query.absolute != lock.root && !HasPrefix(query.absolute, RStripChar(lock.root, '/') + "/") then
      false
    else PlacedCovers(query, lock) || Pre2761Covers(query, lock)
  }

  // ---------------------------------------------------------------- proofs

  lemma EscapeKeepsSlash(t: string)
    requires HasPrefix(t, "/")
    ensures HasPrefix(EscapeLiteral(t), "/")
  {
    PrefixHead(t, "/");
    assert EscapeLiteral(t) == [t[0]] + EscapeLiteral(t[1..]);
  }

  lemma RootedPattern(root: string, rel: string)
    requires HasPrefix(root, "/")
    ensures HasPrefix(EscapeLiteral(RStripChar(root, '/')) + "/" + rel, "/")
  {
    var r := RStripChar(root, '/');
    if r == "" {
      SlashesArePrefix(EscapeLiteral(r) + "/" + rel);
    } else {
      PrefixHead(root, "/");
      assert r[0] == root[0];
      SlashesArePrefix(r);
      EscapeKeepsSlash(r);
      PrefixHead(EscapeLiteral(r), "/");
      SlashesArePrefix(EscapeLiteral(r) + "/" + rel);
    }
  }

  lemma SlashPattern(p: string, s: string)
    ensures Fnmatch(s, "/" + p) <==> s != "" && s[0] == '/' && Fnmatch(s[1..], p)
  {
    assert IsLiteral("/");
    LiteralPrefix("/", p, s);
    if HasPrefix(s, "/") { PrefixHead(s, "/"); }
    if s != "" && s[0] == '/' { SlashesArePrefix(s); }
  }

  lemma PrefixThenSlash(s: string, r: string)
    ensures HasPrefix(s, r + "/") <==> HasPrefix(s, r) && |s| > |r| && s[|r|] == '/'
  {
    if HasPrefix(s, r + "/") {
      PrefixHead(s, r + "/");
      assert s[..|r|] == r;
    }
    if HasPrefix(s, r) && |s| > |r| && s[|r|] == '/' {
      assert s[..|r| + 1] == r + "/";
    }
  }

  /** `_fnmatch_literal` of a directory in front of "/" and a pattern: the directory as text, then
      the pattern on the rest. */
  lemma EscapedDirectory(s: string, r: string, rel: string)
    ensures Fnmatch(s, EscapeLiteral(r) + "/" + rel)
       <==> HasPrefix(s, r + "/") && Fnmatch(s[|r| + 1..], rel)
  {
    assert EscapeLiteral(r) + "/" + rel == EscapeLiteral(r) + ("/" + rel);
    EscapedPrefix(r, "/" + rel, s);
    PrefixThenSlash(s, r);
    if HasPrefix(s, r) {
      SlashPattern(rel, s[|r|..]);
      assert |s| > |r| ==> s[|r|..][1..] == s[|r| + 1..];
    }
  }

  /** The shape of an anchored lock, read off its fields. */
  predicate AnchoredShape(lock: ReaderLock) {
    && !lock.raw && lock.anchored && HasPrefix(lock.root, "/")
    && var r := RStripChar(lock.root, '/');
       lock.pattern == if lock.relative == "." then (if r == "" then "/" else EscapeLiteral(r))
                       else EscapeLiteral(r) + "/" + lock.relative
  }

  lemma EscapeEmpty(t: string)
    ensures EscapeLiteral(t) == "" <==> t == ""
  {
  }

  lemma AnchoredLockShape(pattern: string, root: string, lex: string, rel: string)
    requires HasPrefix(lex, "/")
    ensures AnchoredShape(AnchoredLock(pattern, root, lex, rel))
  {
    EscapeEmpty(RStripChar(lex, '/'));
  }

  lemma AnchoredLocks(pattern: string, root: string)
    ensures PlaceLock(pattern, root).anchored ==> AnchoredShape(PlaceLock(pattern, root))
  {
    if PlaceLock(pattern, root).anchored {
      AnchoredLockShape(pattern, root, LexicalRoot(root).value, LexicalPattern(Strip(pattern)));
    }
  }

  /** Another repository's lock never answers: for any placed query and any anchored lock, a covered path is
      the lock's own root or lies under it. */
  lemma AnchoredStaysInside(path: string, root: string, pattern: string, lockRoot: string)
    requires var query, lock := PlaceQuery(path, root), PlaceLock(pattern, lockRoot);
             !query.raw && query.absolute != "" && !lock.raw && lock.anchored && ReaderCovers(query, lock)
    ensures var absolute := PlaceQuery(path, root).absolute; var r := LexicalRoot(lockRoot).value;
            absolute == r || HasPrefix(absolute, RStripChar(r, '/') + "/")
  {
  }

  /** Otherwise placement adds coverage and never removes what the raw comparison reports, and the raw
      comparison is all there is for a query or a lock that cannot be placed. */
  lemma PlacementOnlyAdds(query: ReaderQuery, lock: ReaderLock)
    ensures var a, b := RStripChar(query.rawRoot, '/'), RStripChar(lock.rawRoot, '/');
            var raw := (a == "" || b == "" || a == b) && Fnmatch(query.rawPath, lock.rawPattern);
            && (query.raw || lock.raw ==> (ReaderCovers(query, lock) <==> raw))
            && (raw && !ReaderCovers(query, lock) ==>
                  && lock.anchored && query.absolute != "" && query.absolute != lock.root
                  && !HasPrefix(query.absolute, RStripChar(lock.root, '/') + "/"))
  {
  }

  lemma RawQueryIsKept(path: string, root: string)
    ensures PlaceQuery(path, root).rawPath == path && PlaceQuery(path, root).rawRoot == root
  {
  }

  lemma RawLockIsKept(pattern: string, root: string)
    ensures PlaceLock(pattern, root).rawPattern == pattern && PlaceLock(pattern, root).rawRoot == root
  {
  }

  /** Which queries and locks cannot be placed. */
  lemma Unplaceable(path: string, root: string)
    ensures var s := Strip(root); var unplaced := NUL in path || NUL in root || (s != "" && s[0] != '/');
            && (PlaceQuery(path, root).raw <==>
                  || unplaced || Strip(path) == ""
                  || (Strip(path)[0] != '/'
                     && var rel := Normpath(Strip(path)); rel == "." || rel == ".." || HasPrefix(rel, "../")))
            && (PlaceLock(path, root).raw <==> unplaced || Strip(path) == "" || ".." in Split(Strip(path), '/'))
  {
    if Strip(root) != "" { HeadSlash(Strip(root)); }
    if Strip(path) != "" { HeadSlash(Strip(path)); }
  }

  /** An absolute lock is compared with the placed path itself, wherever it lies. */
  lemma AbsoluteLock(path: string, root: string, pattern: string, lockRoot: string)
    requires var query := PlaceQuery(path, root); !query.raw && query.absolute != ""
    requires !PlaceLock(pattern, lockRoot).raw && HasPrefix(Strip(pattern), "/")
    ensures var query, lock := PlaceQuery(path, root), PlaceLock(pattern, lockRoot);
            ReaderCovers(query, lock) <==>
              || Fnmatch(query.absolute, LexicalPattern(Strip(pattern)))
              || ((RStripChar(root, '/') == "" || RStripChar(lockRoot, '/') == ""
                 || RStripChar(root, '/') == RStripChar(lockRoot, '/'))
                  && Fnmatch(path, pattern))
  {
    PlacedAbsolute(pattern, lockRoot);
    RawQueryIsKept(path, root);
  }

  lemma PlacedAbsolute(pattern: string, lockRoot: string)
    requires !PlaceLock(pattern, lockRoot).raw && HasPrefix(Strip(pattern), "/")
    ensures var lock := PlaceLock(pattern, lockRoot);
            && !lock.anchored && lock.pattern == LexicalPattern(Strip(pattern)) && HasPrefix(lock.pattern, "/")
            && lock.rawPattern == pattern && lock.rawRoot == lockRoot
  {
    AbsoluteLexical(Strip(pattern));
  }

  lemma AbsoluteLexical(text: string)
    requires HasPrefix(text, "/")
    ensures HasPrefix(LexicalPattern(text), "/")
  {
    var segments := KeptParts(Split(text, '/'));
    if segments != [] {
      var s := AsDirectory("/" + Join(segments, '/'), DirectoryForm(text));
      assert s[0] == '/';
      SlashesArePrefix(s);
    }
  }

  /** Faithful placement: an anchored lock covers exactly the paths under its own root, compared as
      text, whose rest its relative pattern matches. Glob characters in the root mean themselves. */
  lemma AnchoredPlacement(query: ReaderQuery, lock: ReaderLock)
    requires AnchoredShape(lock) && lock.relative != "." && query.absolute != ""
    ensures var inside := RStripChar(lock.root, '/') + "/";
            PlacedCovers(query, lock)
            <==> HasPrefix(query.absolute, inside) && Fnmatch(query.absolute[|inside|..], lock.relative)
  {
    RootedPattern(lock.root, lock.relative);
    EscapedDirectory(query.absolute, RStripChar(lock.root, '/'), lock.relative);
  }

  lemma EscapedRoot(s: string, r: string)
    requires HasPrefix(r, "/")
    ensures HasPrefix(EscapeLiteral(r), "/")
    ensures Fnmatch(s, EscapeLiteral(r)) <==> s == r
  {
    EscapeKeepsSlash(r);
    EscapedPrefix(r, "", s);
    assert EscapeLiteral(r) + "" == EscapeLiteral(r);
    if HasPrefix(s, r) {
      assert s == r + s[|r|..];
    }
  }

  /** An anchored lock on its root itself covers exactly that root. */
  lemma AnchoredRoot(query: ReaderQuery, lock: ReaderLock)
    requires AnchoredShape(lock) && lock.relative == "." && query.absolute != ""
    ensures var r := RStripChar(lock.root, '/');
            PlacedCovers(query, lock) <==> query.absolute == if r == "" then "/" else r
  {
    var r := RStripChar(lock.root, '/');
    if r == "" {
      assert IsLiteral("/");
      LiteralMatchesItself("/", query.absolute);
    } else {
      PrefixHead(lock.root, "/");
      SlashesArePrefix(r);
      EscapedRoot(query.absolute, r);
    }
  }

  /** A position that begins a "/"-boundary suffix. */
  predicate Boundary(tail: string, k: int) {
    0 <= k <= |tail| && (k == 0 || tail[k - 1] == '/')
  }

  ghost predicate SomeSuffixMatches(tail: string, p: string) {
    exists k :: Boundary(tail, k) && Fnmatch(tail[k..], p)
  }

  lemma StarSlash(p: string, tail: string)
    ensures Fnmatch(tail, "*/" + p)
       <==> exists k :: 1 <= k <= |tail| && tail[k - 1] == '/' && Fnmatch(tail[k..], p)
  {
    StarPrefix("/" + p, tail);
    assert "*/" + p == "*" + ("/" + p);
    if Fnmatch(tail, "*/" + p) {
      var j :| 0 <= j <= |tail| && Fnmatch(tail[j..], "/" + p);
      SlashPattern(p, tail[j..]);
      assert tail[j..][1..] == tail[j + 1..];
      assert tail[j + 1 - 1] == '/' && Fnmatch(tail[j + 1..], p);
    }
    if k :| 1 <= k <= |tail| && tail[k - 1] == '/' && Fnmatch(tail[k..], p) {
      SlashPattern(p, tail[k - 1..]);
      assert tail[k - 1..][1..] == tail[k..];
    }
  }

  /** An unanchored relative lock covers an absolute query exactly when its pattern matches some
      "/"-boundary suffix of the path. */
  lemma UnanchoredSuffixes(query: ReaderQuery, lock: ReaderLock)
    requires !lock.anchored && !HasPrefix(lock.pattern, "/") && lock.suffixPattern == "*/" + lock.pattern
    requires query.absolute != ""
    ensures PlacedCovers(query, lock) <==> SomeSuffixMatches(LStripChar(query.absolute, '/'), lock.pattern)
  {
    var tail := LStripChar(query.absolute, '/');
    StarSlash(lock.pattern, tail);
    assert Boundary(tail, 0) && tail[0..] == tail;
    if k :| 1 <= k <= |tail| && tail[k - 1] == '/' && Fnmatch(tail[k..], lock.pattern) {
      assert Boundary(tail, k);
    }
  }

  lemma UnanchoredLocks(pattern: string, root: string)
    ensures var lock := PlaceLock(pattern, root);
            !lock.raw && !lock.anchored && !HasPrefix(lock.pattern, "/") ==>
              lock.suffixPattern == "*/" + lock.pattern
  {
  }

  lemma CanonicalIsPlain(path: string)
    requires IsCanonical(path)
    ensures path != "" && !HasPrefix(path, "/") && Normpath(path) == path
    ensures NUL !in path && path != "." && path != ".."
  {
    var parts := Split(path, '/');
    assert forall k :: 0 <= k < |parts| ==> parts[k] in parts;
    NormpathPlain(path);
    if '/' !in path { SplitNoSep(path, '/'); }
  }

  lemma CanonicalHasNoParent(path: string)
    requires IsCanonical(path)
    ensures !HasPrefix(path, "../")
  {
    if HasPrefix(path, "../") {
      assert path == ".." + "/" + path[3..];
      SplitConcat("..", path[3..], '/');
      SplitNoSep("..", '/');
    }
    assert IsCanonical(path) ==> Split(path, '/')[0] in Split(path, '/');
  }

  lemma PlainIsNoDirectory(path: string)
    requires forall part :: part in Split(path, '/') ==> PlainPart(part)
    ensures !DirectoryForm(path)
  {
    var i := LastSlash(path);
    if i > 0 {
      var last := path[i..];
      assert path == path[..i - 1] + "/" + last;
      SplitConcat(path[..i - 1], last, '/');
      SplitNoSep(last, '/');
      assert last in Split(path, '/');
    }
  }

  /** Where a canonical path is placed. */
  lemma CanonicalQuery(path: string, root: string)
    requires IsCanonical(path) && Strip(path) == path
    requires LexicalRoot(root).Some? && NUL !in root
    ensures var lex := LexicalRoot(root).value;
            (PlaceQuery(path, root)
             == if lex == "" then ReaderQuery(path, root, "", path, false)
                else ReaderQuery(path, root, RStripChar(lex, '/') + "/" + path, "", false))
  {
    CanonicalIsPlain(path);
    CanonicalHasNoParent(path);
    PlainIsNoDirectory(path);
  }

  /** A stripped relative pattern that names no parent directory. */
  predicate RelativePattern(pattern: string) {
    && pattern != "" && Strip(pattern) == pattern && NUL !in pattern
    && ".." !in Split(pattern, '/') && !HasPrefix(pattern, "/")
  }

  lemma LexicalIsRelative(text: string)
    requires !HasPrefix(text, "/")
    ensures !HasPrefix(LexicalPattern(text), "/")
  {
    var segments, form := KeptParts(Split(text, '/')), LexicalPattern(text);
    if text != "" { HeadSlash(text); }
    LexicalPatternIs(text);
    if segments != [] {
      SplitFree(text, '/');
      assert segments[0] in segments && '/' !in segments[0];
      JoinHead(segments);
      assert form[0] == Join(segments, '/')[0];
    }
    HeadSlash(form);
  }

  lemma RelativeLock(pattern: string, root: string)
    requires RelativePattern(pattern) && LexicalRoot(root).Some? && NUL !in root
    ensures var lock := PlaceLock(pattern, root);
            && lock.rawPattern == pattern && lock.relative == LexicalPattern(pattern) && lock.rawRoot == root
            && !lock.raw && lock.anchored == (LexicalRoot(root).value != "")
            && (lock.anchored ==> lock.root == LexicalRoot(root).value)
            && (!lock.anchored ==> lock.pattern == LexicalPattern(pattern) && !HasPrefix(lock.pattern, "/"))
  {
    LexicalIsRelative(pattern);
  }

  /** Under one root, or none, the placed readers say exactly what plain fnmatch says of the relative
      path, by the pattern as written or without its empty and "." segments: placement neither loses
      nor invents coverage. */
  lemma CoverageIsFnmatch(path: string, pattern: string, root: string)
    requires IsCanonical(path) && Strip(path) == path
    requires RelativePattern(pattern)
    requires LexicalRoot(root).Some? && NUL !in root
    ensures ReaderCovers(PlaceQuery(path, root), PlaceLock(pattern, root))
       <==> Fnmatch(path, LexicalPattern(pattern)) || Fnmatch(path, pattern)
  {
    CanonicalQuery(path, root);
    RelativeLock(pattern, root);
    var lex := LexicalRoot(root).value;
    if lex != "" {
      AnchoredLocks(pattern, root);
      JoinedCoverage(PlaceQuery(path, root), PlaceLock(pattern, root), path);
    }
  }

  lemma JoinedCoverage(query: ReaderQuery, lock: ReaderLock, path: string)
    requires AnchoredShape(lock) && IsCanonical(path)
    requires !query.raw && query.absolute == RStripChar(lock.root, '/') + "/" + path
    requires query.rawPath == path && query.rawRoot == lock.rawRoot
    ensures ReaderCovers(query, lock) <==> Fnmatch(path, lock.relative) || Fnmatch(path, lock.rawPattern)
  {
    var inside := RStripChar(lock.root, '/') + "/";
    CanonicalIsPlain(path);
    assert query.absolute[..|inside|] == inside && query.absolute[|inside|..] == path;
    if lock.relative == "." {
      AnchoredRoot(query, lock);
      assert IsLiteral(".");
      LiteralMatchesItself(".", path);
      assert |query.absolute| > |inside|;
    } else {
      AnchoredPlacement(query, lock);
    }
  }

  predicate PlainParts(parts: seq<string>) {
    forall k :: 0 <= k < |parts| ==> PlainPart(parts[k])
  }

  lemma {:induction false} NormCompsRooted(comps: seq<string>, acc: seq<string>)
    requires forall k :: 0 <= k < |comps| ==> '/' !in comps[k]
    requires PlainParts(acc)
    ensures PlainParts(NormComps(comps, acc, true))
    decreases |comps|
  {
    if comps != [] {
      assert forall k :: 0 <= k < |comps| - 1 ==> comps[1..][k] == comps[k + 1];
      if comps[0] == "" || comps[0] == "." {
        NormCompsRooted(comps[1..], acc);
      } else if comps[0] != ".." || (acc != [] && acc[|acc| - 1] == "..") {
        assert acc != [] ==> PlainPart(acc[|acc| - 1]);
        NormCompsRooted(comps[1..], acc + [comps[0]]);
      } else if acc != [] {
        NormCompsRooted(comps[1..], acc[..|acc| - 1]);
      } else {
        NormCompsRooted(comps[1..], acc);
      }
    }
  }

  /** The normal absolute paths: "/" or "/" and plain components. */
  ghost predicate IsAbsoluteNormal(s: string) {
    exists parts: seq<string> :: PlainParts(parts) && s == "/" + Join(parts, '/')
  }

  lemma AbsoluteFormIsNormal(s: string)
    requires HasPrefix(s, "/")
    ensures IsAbsoluteNormal(AbsoluteForm(s))
  {
    SplitFree(s, '/');
    NormCompsRooted(Split(s, '/'), []);
    var lead := InitialSlashes(s);
    var parts := NormComps(Split(s, '/'), [], true);
    var n := Normpath(s);
    assert n == lead + Join(parts, '/');
    if parts != [] {
      assert PlainPart(parts[0]);
      JoinHead(parts);
    }
    StripLead(lead, Join(parts, '/'));
    assert LStripChar(n, '/') == Join(parts, '/');
  }

  lemma StripLead(lead: string, s: string)
    requires lead == "" || lead == "/" || lead == "//"
    requires s == "" || s[0] != '/'
    ensures LStripChar(lead + s, '/') == s
  {
    assert LStripChar("" + s, '/') == s by { assert "" + s == s; }
    assert LStripChar("/" + s, '/') == s by { assert ("/" + s)[1..] == s; }
    assert LStripChar("//" + s, '/') == LStripChar("/" + s, '/') by { assert ("//" + s)[1..] == "/" + s; }
  }

  /** Normalising a normal absolute path, with a plain tail joined on, changes nothing. */
  lemma AbsoluteFormFixed(parts: seq<string>)
    requires parts != [] && PlainParts(parts)
    ensures AbsoluteForm("/" + Join(parts, '/')) == "/" + Join(parts, '/')
  {
    var body := Join(parts, '/');
    var s := "/" + body;
    assert PlainPart(parts[0]);
    JoinHead(parts);
    assert s[..1] == "/";
    if HasPrefix(s, "//") { PrefixHead(s, "//"); }
    SplitConcat("", body, '/');
    assert "" + "/" + body == s;
    assert forall k :: 0 <= k < |parts| ==> PlainPart(parts[k]);
    SplitJoin(parts, '/');
    assert Split(s, '/') == [""] + parts;
    NormCompsPlain(parts, [], true);
    assert ([""] + parts)[1..] == parts && [] + parts == parts;
    assert Normpath(s) == "/" + body;
    StripLead("/", body);
  }

  lemma AbsoluteSplit(parts: seq<string>)
    requires parts != [] && PlainParts(parts)
    ensures Split("/" + Join(parts, '/'), '/') == [""] + parts
  {
    assert "" + "/" + Join(parts, '/') == "/" + Join(parts, '/');
    SplitConcat("", Join(parts, '/'), '/');
    assert forall k :: 0 <= k < |parts| ==> PlainPart(parts[k]);
    SplitJoin(parts, '/');
  }

  lemma UnderRoot(pattern: string, root: string)
    requires HasPrefix(pattern, "/") && HasPrefix(root, "/") && root != "/"
    requires Strip(pattern) == pattern && Strip(root) == root
    requires AbsoluteForm(pattern) == pattern && AbsoluteForm(root) == root
    ensures CanonicalPattern(pattern, root)
         == if AtOrUnder(pattern, root) then LStripChar(pattern[|root|..], '/') else pattern
  {
  }

  lemma AbsoluteParts(parts: seq<string>, s: string)
    requires parts != [] && PlainParts(parts) && s == "/" + Join(parts, '/')
    ensures HasPrefix(s, "/") && s != "/" && AbsoluteForm(s) == s && Split(s, '/') == [""] + parts
  {
    assert PlainPart(parts[0]);
    JoinHead(parts);
    SlashesArePrefix(s);
    AbsoluteFormFixed(parts);
    AbsoluteSplit(parts);
  }

  lemma TailOf(root: string, tail: string)
    requires tail != "" && tail[0] != '/'
    ensures LStripChar((root + ("/" + tail))[|root|..], '/') == tail
  {
    assert (root + ("/" + tail))[|root|..] == "/" + tail;
    StripLead("/", tail);
  }

  lemma RestOf(base: seq<string>, tail: seq<string>, root: string, pattern: string)
    requires base != [] && PlainParts(tail)
    requires root == "/" + Join(base, '/') && pattern == "/" + Join(base + tail, '/')
    ensures |root| <= |pattern| && LStripChar(pattern[|root|..], '/') == Join(tail, '/')
  {
    if tail == [] {
      assert base + tail == base;
      assert pattern[|root|..] == "";
    } else {
      JoinConcat(base, tail);
      assert pattern == root + ("/" + Join(tail, '/'));
      assert PlainPart(tail[0]);
      JoinHead(tail);
      TailOf(root, Join(tail, '/'));
    }
  }

  /** An absolute pattern under the root becomes relative to it, and one outside stays absolute. */
  lemma CanonicalUnderRoot(base: seq<string>, parts: seq<string>, root: string, pattern: string)
    requires base != [] && parts != [] && PlainParts(base) && PlainParts(parts)
    requires root == "/" + Join(base, '/') && pattern == "/" + Join(parts, '/')
    requires Strip(root) == root && Strip(pattern) == pattern
    ensures CanonicalPattern(pattern, root) == if base <= parts then Join(parts[|base|..], '/') else pattern
  {
    AbsoluteParts(base, root);
    AbsoluteParts(parts, pattern);
    UnderRoot(pattern, root);
    AtOrUnderIsPrefix(pattern, root);
    PrefixesShift(base, parts);
    if base <= parts { RestUnder(base, parts, root, pattern); }
  }

  lemma LastPartAt(text: string, i: nat)
    requires i <= |text| && (i > 0 ==> text[i - 1] == '/') && '/' !in text[i..]
    ensures var parts := Split(text, '/'); parts[|parts| - 1] == text[i..] && ('/' in text <==> |parts| > 1)
  {
    var last := text[i..];
    if i == 0 {
      assert last == text;
      SplitNoSep(text, '/');
    } else {
      var before := text[..i - 1];
      assert text == before + ['/'] + last;
      SplitBefore(before, last, text);
    }
  }

  /** The last component of a text is what stands after its last slash. */
  lemma LastPart(text: string)
    ensures var parts := Split(text, '/');
            parts[|parts| - 1] == text[LastSlash(text)..] && ('/' in text <==> |parts| > 1)
  {
    LastPartAt(text, LastSlash(text));
  }

  lemma SplitBefore(before: string, last: string, text: string)
    requires text == before + ['/'] + last && '/' !in last
    ensures '/' in text && Split(text, '/') == Split(before, '/') + [last]
  {
    SplitConcat(before, last, '/');
    SplitNoSep(last, '/');
    assert text[|before|] == '/';
  }

  /** A text that ends in a slash, or in a "." or ".." component after one. */
  predicate SaysDirectory(text: string) {
    var parts := Split(text, '/');
    |parts| > 1 && parts[|parts| - 1] in ["", ".", ".."]
  }

  lemma DirectoryIsSaid(text: string)
    ensures DirectoryForm(text) <==> SaysDirectory(text)
  {
    LastPart(text);
  }

  /** Where a query that can be placed is placed: normalised, absolute if it is or has a root, and with its
      trailing slash if it says it is a directory. */
  lemma QueryPlace(path: string, root: string)
    requires !PlaceQuery(path, root).raw
    ensures var q, s, t := PlaceQuery(path, root), Strip(path), Strip(root);
            var absolute := s != "" && s[0] == '/';
            var place := if absolute then "/" + LStripChar(Normpath(s), '/')
                         else if t == "" then Normpath(s)
                         else RStripChar("/" + LStripChar(Normpath(t), '/'), '/') + "/" + Normpath(s);
            var full := if SaysDirectory(s) && !HasSuffix(place, "/") then place + "/" else place;
            if absolute || t != "" then q.absolute == full && q.relative == ""
            else q.relative == full && q.absolute == ""
  {
    if Strip(path) != "" { HeadSlash(Strip(path)); }
    DirectoryIsSaid(Strip(path));
  }

  lemma {:induction false} NamesEnd(parts: seq<string>)
    requires parts != [] && forall k :: 0 <= k < |parts| ==> parts[k] != "" && '/' !in parts[k]
    ensures Join(parts, '/') != "" && !HasSuffix(Join(parts, '/'), "/")
  {
    if |parts| == 1 {
      assert parts[0][|parts[0]| - 1..] == [parts[0][|parts[0]| - 1]];
    } else {
      assert forall k :: 0 <= k < |parts| - 1 ==> parts[1..][k] == parts[k + 1];
      NamesEnd(parts[1..]);
      var rest, s := Join(parts[1..], '/'), Join(parts, '/');
      assert s == parts[0] + ['/'] + rest;
      assert s[|s| - 1..] == rest[|rest| - 1..];
    }
  }

  lemma KeptNames(parts: seq<string>)
    requires forall k :: 0 <= k < |parts| ==> '/' !in parts[k]
    ensures forall k :: 0 <= k < |KeptParts(parts)| ==> KeptParts(parts)[k] != "" && '/' !in KeptParts(parts)[k]
  {
    forall k | 0 <= k < |KeptParts(parts)| ensures KeptParts(parts)[k] != "" && '/' !in KeptParts(parts)[k] {
      assert KeptParts(parts)[k] in KeptParts(parts);
    }
  }

  lemma LeadKeepsEnd(lead: string, body: string)
    requires body != ""
    ensures HasSuffix(lead + body, "/") <==> HasSuffix(body, "/")
  {
    assert (lead + body)[|lead + body| - 1..] == body[|body| - 1..];
  }

  /** The lexical form of a pattern: its components other than "" and ".", ".." included, a leading slash if
      it has one, and a trailing one if it says it is a directory. */
  lemma LexicalPatternIs(text: string)
    ensures var kept := KeptParts(Split(text, '/')); var absolute := text != "" && text[0] == '/';
            LexicalPattern(text) ==
              if kept == [] then (if absolute then "/" else ".")
              else (if absolute then "/" else "") + Join(kept, '/') + (if SaysDirectory(text) then "/" else "")
  {
    if text != "" { HeadSlash(text); }
    DirectoryIsSaid(text);
    var kept := KeptParts(Split(text, '/'));
    if kept != [] {
      SplitFree(text, '/');
      KeptNames(Split(text, '/'));
      NamesEnd(kept);
      LeadKeepsEnd(if HasPrefix(text, "/") then "/" else "", Join(kept, '/'));
    }
  }

  /** Two directories and the components of their absolute forms; a root that is no absolute path has none. */
  predicate Rooted(s: string, t: string, parts: seq<string>, base: seq<string>) {
    && PlainParts(parts) && PlainParts(base) && AbsoluteForm(s) == "/" + Join(parts, '/')
    && if t != "" && t[0] == '/' then AbsoluteForm(t) == "/" + Join(base, '/') else base == []
  }

  /** The canonical form of any pattern. A relative one is normalised; an absolute one is too, and loses the
      components of its root if there are any and it begins with them. */
  lemma CanonicalPatternIs(pattern: string, root: string)
    ensures var s, t, c := Strip(pattern), Strip(root), CanonicalPattern(pattern, root);
            && (s == "" ==> c == "")
            && (s != "" && s[0] != '/' ==> c == if Normpath(s) == "." then "" else Normpath(s))
            && (s != "" && s[0] == '/' ==> exists parts, base ::
                 Rooted(s, t, parts, base)
                 && c == if base != [] && base <= parts then Join(parts[|base|..], '/') else "/" + Join(parts, '/'))
  {
    var s, t := Strip(pattern), Strip(root);
    if s != "" { HeadSlash(s); }
    if t != "" { HeadSlash(t); }
    if s != "" && s[0] == '/' {
      AbsoluteFormIsNormal(s);
      var parts: seq<string> :| PlainParts(parts) && AbsoluteForm(s) == "/" + Join(parts, '/');
      var base: seq<string> := [];
      if t != "" && t[0] == '/' {
        AbsoluteFormIsNormal(t);
        base :| PlainParts(base) && AbsoluteForm(t) == "/" + Join(base, '/');
      }
      assert Rooted(s, t, parts, base);
      CutAtRoot(AbsoluteForm(s), parts, base);
    }
  }

  function CutAt(a: string, r: string): string {
    if r != "/" && AtOrUnder(a, r) then LStripChar(a[|r|..], '/') else a
  }

  lemma CutAtRoot(a: string, parts: seq<string>, base: seq<string>)
    requires PlainParts(parts) && PlainParts(base) && a == "/" + Join(parts, '/')
    ensures CutAt(a, "/" + Join(base, '/'))
         == if base != [] && base <= parts then Join(parts[|base|..], '/') else a
  {
    var r := "/" + Join(base, '/');
    if base == [] {
      assert r == "/";
    } else {
      AbsoluteParts(base, r);
      if parts == [] {
        assert a == "/" && |r| > 1;
      } else {
        AbsoluteParts(parts, a);
        AtOrUnderIsPrefix(a, r);
        PrefixesShift(base, parts);
        if base <= parts { RestUnder(base, parts, r, a); }
      }
    }
  }

  lemma RestUnder(base: seq<string>, parts: seq<string>, root: string, pattern: string)
    requires base != [] && base <= parts && PlainParts(parts)
    requires root == "/" + Join(base, '/') && pattern == "/" + Join(parts, '/')
    ensures |root| <= |pattern| && LStripChar(pattern[|root|..], '/') == Join(parts[|base|..], '/')
  {
    var tail := parts[|base|..];
    assert base + tail == parts;
    assert forall k :: 0 <= k < |tail| ==> tail[k] == parts[|base| + k];
    RestOf(base, tail, root, pattern);
  }

  lemma PrefixesShift(a: seq<string>, b: seq<string>)
    ensures [""] + a <= [""] + b <==> a <= b
  {
    if [""] + a <= [""] + b {
      assert forall k :: 0 <= k < |a| ==> a[k] == ([""] + a)[k + 1] == ([""] + b)[k + 1] == b[k];
    }
  }

  lemma JoinedIsNormal(lex: string, path: string)
    requires IsAbsoluteNormal(lex) && IsCanonical(path)
    ensures var joined := RStripChar(lex, '/') + "/" + path; AbsoluteForm(joined) == joined
  {
    var parts: seq<string> :| PlainParts(parts) && lex == "/" + Join(parts, '/');
    var tail := Split(path, '/');
    assert PlainParts(tail) by {
      assert forall k :: 0 <= k < |tail| ==> tail[k] in tail;
    }
    JoinSplit(path, '/');
    JoinedParts(parts, tail);
    if parts == [] {
      assert parts + tail == tail;
    }
    AbsoluteFormFixed(parts + tail);
  }

  lemma JoinedParts(parts: seq<string>, tail: seq<string>)
    requires PlainParts(parts) && tail != []
    ensures RStripChar("/" + Join(parts, '/'), '/') + "/" + Join(tail, '/') == "/" + Join(parts + tail, '/')
  {
    if parts == [] {
      assert "/" + "" == "/" && "/"[..0] == "";
      assert RStripChar("/", '/') == "";
      assert parts + tail == tail;
    } else {
      RootHasNoTrailingSlash(parts);
      JoinConcat(parts, tail);
    }
  }

  lemma AbsoluteQuery(path: string, root: string)
    requires HasPrefix(path, "/") && Strip(path) == path && NUL !in path && !DirectoryForm(path)
    requires LexicalRoot(root).Some? && NUL !in root
    ensures PlaceQuery(path, root).absolute == AbsoluteForm(path)
  {
    assert path != "";
  }

  lemma JoinedStart(lex: string, path: string)
    requires IsAbsoluteNormal(lex)
    ensures HasPrefix(RStripChar(lex, '/') + "/" + path, "/")
  {
    var r := RStripChar(lex, '/');
    assert lex[0] == '/';
    assert r != "" ==> r[0] == lex[0];
    SlashesArePrefix(r + "/" + path);
  }

  /** One file, two spellings: the relative path under its root, and the joined absolute path sent
      with any placeable root, are placed at the same point. */
  lemma SpellingsAgree(path: string, root: string, other: string)
    requires IsCanonical(path) && Strip(path) == path
    requires LexicalRoot(root).Some? && LexicalRoot(root).value != "" && NUL !in root
    requires LexicalRoot(other).Some? && NUL !in other
    requires var joined := RStripChar(LexicalRoot(root).value, '/') + "/" + path;
             NUL !in joined && Strip(joined) == joined
    ensures var joined := RStripChar(LexicalRoot(root).value, '/') + "/" + path;
            PlaceQuery(joined, other).absolute == PlaceQuery(path, root).absolute == joined
  {
    var lex := LexicalRoot(root).value;
    var joined := RStripChar(lex, '/') + "/" + path;
    CanonicalQuery(path, root);
    AbsoluteFormIsNormal(Strip(root));
    JoinedIsNormal(lex, path);
    CanonicalIsPlain(path);
    PlainIsNoDirectory(path);
    JoinedIsNoDirectory(RStripChar(lex, '/'), path);
    JoinedStart(lex, path);
    AbsoluteQuery(joined, other);
  }

  lemma {:induction false} RootHasNoTrailingSlash(parts: seq<string>)
    requires parts != [] && PlainParts(parts)
    ensures var s := Join(parts, '/'); s != "" && s[|s| - 1] != '/'
    ensures RStripChar("/" + Join(parts, '/'), '/') == "/" + Join(parts, '/')
  {
    assert PlainPart(parts[0]);
    if |parts| > 1 {
      assert forall k :: 0 <= k < |parts| - 1 ==> parts[1..][k] == parts[k + 1];
      RootHasNoTrailingSlash(parts[1..]);
    }
  }

  lemma JoinedIsNoDirectory(base: string, path: string)
    requires path != "" && !DirectoryForm(path) && path != "." && path != ".."
    ensures !DirectoryForm(base + "/" + path)
  {
    var s := base + "/" + path;
    var i := LastSlash(path);
    LastSlashOfConcat(base + "/", path);
    if i > 0 {
      assert s[LastSlash(s)..] == path[i..];
    } else {
      assert s[LastSlash(s)..] == path;
      assert path[0..] == path;
    }
  }

  lemma {:induction false} LastSlashOfConcat(a: string, b: string)
    requires a != "" && a[|a| - 1] == '/'
    ensures LastSlash(a + b) == |a| + LastSlash(b)
  {
    if b == "" {
      assert a + b == a;
    } else if b[|b| - 1] != '/' {
      assert (a + b)[..|a + b| - 1] == a + b[..|b| - 1];
      LastSlashOfConcat(a, b[..|b| - 1]);
    }
  }
}
