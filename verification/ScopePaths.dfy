/** Canonical paths and the conservative overlap tests of scope_paths.py. */
module ScopePaths {
  import opened Wrappers
  import opened PyStrings
  import opened Globs
  import opened PosixPaths

  // ---------------------------------------------------------------- canonical paths

  datatype Unsafe =
    | EmptyPath | ControlCharacter | Backslash | Absolute | PathspecMagic | GlobCharacter
    | ParentSegment | RepositoryRoot | InsideGit | LeadingDash

  predicate IsControl(c: char) {
    c < ' ' || c == '\U{7F}'
  }

  /** The components other than "" and "." */
  function KeptParts(parts: seq<string>): (kept: seq<string>)
    ensures forall p :: p in kept <==> p in parts && p != "" && p != "."
    ensures kept != [] ==> kept[0] != ""
  {
    if parts == [] then []
    else (if parts[0] == "" || parts[0] == "." then [] else [parts[0]]) + KeptParts(parts[1..])
  }

  /** `canonical_relpath`, for a string argument */
  function CanonicalRelpath(path: string): Result<string, Unsafe> {
    if path == "" then Err(EmptyPath)
    else if exists k :: 0 <= k < |path| && IsControl(path[k]) then Err(ControlCharacter)
    else if '\\' in path then Err(Backslash)
    else if path[0] == '/' then Err(Absolute)
    else if path[0] == ':' then Err(PathspecMagic)
    else if !IsLiteral(path) then Err(GlobCharacter)
    else
      var parts := KeptParts(Split(path, '/'));
      if ".." in parts then Err(ParentSegment)
      else if parts == [] then Err(RepositoryRoot)
      else if ".git" in parts then Err(InsideGit)
      else if parts[0][0] == '-' then Err(LeadingDash)
      else Ok(Join(parts, '/'))
  }

  /** A character an accepted path may contain. */
  predicate PathChar(c: char) {
    !IsControl(c) && c != '\\' && !IsMeta(c)
  }

  /** What every accepted path looks like, said without the function. */
  predicate IsCanonical(r: string) {
    && (forall k :: 0 <= k < |r| ==> PathChar(r[k]))
    && (forall p :: p in Split(r, '/') ==> PlainPart(p) && p != ".git")
    && !HasPrefix(r, "-")
  }

  // ---------------------------------------------------------------- literal prefixes

  /** The specification of `literal_prefix`. */
  function LiteralParts(parts: seq<string>): (r: (seq<string>, bool))
    ensures r.0 <= parts
    ensures forall k :: 0 <= k < |r.0| ==> IsLiteral(parts[k])
    ensures r.1 <==> |r.0| < |parts|
    ensures r.1 ==> !IsLiteral(parts[|r.0|])
  {
    if parts == [] then ([], false)
    else if !IsLiteral(parts[0]) then ([], true)
    else
      var rest := LiteralParts(parts[1..]);
      assert parts == [parts[0]] + parts[1..];
      ([parts[0]] + rest.0, rest.1)
  }

  method LiteralPrefixLoop(parts: seq<string>) returns (out: seq<string>, glob: bool)
    ensures (out, glob) == LiteralParts(parts)
  {
    out := [];
    ghost var spec := LiteralParts(parts);
    for i := 0 to |parts|
      invariant out == parts[..i]
      invariant i <= |spec.0|
    {
      if !IsLiteral(parts[i]) {
        assert |spec.0| == i && spec.0 == parts[..|spec.0|];
        return out, true;
      }
      out := out + [parts[i]];
    }
    assert parts[..|parts|] == parts && spec.0 == parts[..|spec.0|];
    return out, false;
  }

  /** Python's `s[:n]` */
  function Take<T>(s: seq<T>, n: nat): seq<T> {
    if n <= |s| then s[..n] else s
  }

  function Min(a: nat, b: nat): nat {
    if a < b then a else b
  }

  function MayOverlap(path: string, pattern: string): bool {
    if pattern == "" then true
    else if Fnmatch(path, pattern) then true
    else
      var p := Split(path, '/');
      var l := Split(pattern, '/');
      var (literal, glob) := LiteralParts(l);
      if !glob then Take(p, |l|) == l || Take(l, |p|) == p
      else
        var n := Min(|literal|, |p|);
        Take(p, n) == Take(literal, n)
  }

  function AlgebraicOverlap(a: string, b: string): bool {
    if a == "" || b == "" then true
    else if HasPrefix(a, "/") != HasPrefix(b, "/") then true
    else
      var (aLit, aGlob) := LiteralParts(Split(a, '/'));
      var (bLit, bGlob) := LiteralParts(Split(b, '/'));
      if !aGlob then MayOverlap(a, b)
      else if !bGlob then MayOverlap(b, a)
      else
        var n := Min(|aLit|, |bLit|);
        Take(aLit, n) == Take(bLit, n)
  }

  // ---------------------------------------------------------------- what a match means

  /** `f` is the path `p`, or lies under it. */
  predicate AtOrUnder(f: string, p: string) {
    f == p || HasPrefix(f, p + "/")
  }

  /** The edit hook's `scope_matches`, on a pattern already in canonical form. */
  predicate ScopeCovers(rel: string, pat: string) {
    if pat == "" then false
    else if HasSuffix(pat, "/**") then AtOrUnder(rel, pat[..|pat| - 3])
    else if HasSuffix(pat, "/*") then Dirname(rel) == pat[..|pat| - 2]
    else Fnmatch(rel, pat)
  }

  /** Some enforcement reader says the file `f` is covered by the canonical pattern `p`.
      `canonical_pattern` never yields a leading "//" (CanonicalPatternSlash). */
  predicate Covered(f: string, p: string) {
    Fnmatch(f, p) || (ScopeCovers(f, p) && !HasPrefix(p, "//"))
  }

  function CanonicalRoot(root: string): string {
    if !HasPrefix(Strip(root), "/") then "" else AbsoluteForm(Strip(root))
  }

  function CanonicalPattern(pattern: string, root: string): string {
    var pat := Strip(pattern);
    if pat == "" then ""
    else if HasPrefix(pat, "/") then
      var absolute := AbsoluteForm(pat);
      var r := CanonicalRoot(root);
      if r != "" && r != "/" && AtOrUnder(absolute, r) then LStripChar(absolute[|r|..], '/')
      else absolute
    else if Normpath(pat) == "." then "" else Normpath(pat)
  }

  predicate ScopeMatches(rel: string, pattern: string, root: string) {
    ScopeCovers(rel, CanonicalPattern(pattern, root))
  }

  // ---------------------------------------------------------------- proofs

  lemma {:induction false} KeptPartsAll(parts: seq<string>)
    requires forall p :: p in parts ==> p != "" && p != "."
    ensures KeptParts(parts) == parts
  {
    if parts != [] {
      assert parts[0] in parts && forall p :: p in parts[1..] ==> p in parts;
      KeptPartsAll(parts[1..]);
      assert parts == [parts[0]] + parts[1..];
    }
  }

  lemma {:induction false} SplitChars(s: string, part: string, c: char)
    requires part in Split(s, '/') && c in part
    ensures c in s
  {
    if s != "" {
      var rest := Split(s[1..], '/');
      if part in rest {
        SplitChars(s[1..], part, c);
      } else if s[0] != '/' {
        assert Split(s, '/') == [[s[0]] + rest[0]] + rest[1..];
        assert part == [s[0]] + rest[0];
        if c != s[0] { SplitChars(s[1..], rest[0], c); }
      }
    }
  }

  lemma {:induction false} JoinChars(parts: seq<string>, c: char)
    requires c in Join(parts, '/') && c != '/'
    ensures exists p :: p in parts && c in p
  {
    if |parts| == 1 {
      assert parts[0] in parts;
    } else if |parts| > 1 {
      if c in parts[0] {
        assert parts[0] in parts;
      } else {
        JoinChars(parts[1..], c);
        var p :| p in parts[1..] && c in p;
        assert p in parts;
      }
    }
  }

  lemma JoinHead(parts: seq<string>)
    requires parts != [] && parts[0] != ""
    ensures Join(parts, '/') != "" && Join(parts, '/')[0] == parts[0][0]
  {
  }

  /** An accepted path is canonical, and keeps exactly the named components of its input. */
  lemma RelpathAccepted(path: string)
    requires CanonicalRelpath(path).Ok?
    ensures var r := CanonicalRelpath(path).value;
            IsCanonical(r) && Split(r, '/') == KeptParts(Split(path, '/'))
  {
    var parts := KeptParts(Split(path, '/'));
    SplitFree(path, '/');
    var r := Join(parts, '/');
    assert forall k :: 0 <= k < |parts| ==> parts[k] in parts;
    SplitJoin(parts, '/');
    assert parts[0] in parts;
    forall k | 0 <= k < |r| ensures PathChar(r[k]) {
      if r[k] != '/' {
        JoinChars(parts, r[k]);
        var p :| p in parts && r[k] in p;
        SplitChars(path, p, r[k]);
      }
    }
    DashHead(parts);
  }

  lemma DashHead(parts: seq<string>)
    requires parts != [] && parts[0] != "" && parts[0][0] != '-'
    ensures !HasPrefix(Join(parts, '/'), "-")
  {
    var r := Join(parts, '/');
    JoinHead(parts);
    assert r[0] != "-"[0];
    if HasPrefix(r, "-") { PrefixHead(r, "-"); }
  }

  lemma DotParts(r: string)
    requires IsCanonical(r)
    ensures KeptParts(Split("./" + r, '/')) == Split(r, '/')
  {
    assert "./" + r == "." + "/" + r;
    SplitConcat(".", r, '/');
    SplitNoSep(".", '/');
    var parts := Split(r, '/');
    KeptPartsAll(parts);
    assert (["."] + parts)[1..] == parts;
    assert KeptParts(["."] + parts) == [] + parts;
  }

  lemma DotChars(r: string)
    requires IsCanonical(r)
    ensures forall k :: 0 <= k < |"./" + r| ==> PathChar(("./" + r)[k])
  {
    assert forall k :: 2 <= k < |"./" + r| ==> ("./" + r)[k] == r[k - 2];
  }

  /** The first part of a canonical path is a name that does not begin with "-". */
  lemma CanonicalHead(r: string)
    requires IsCanonical(r)
    ensures var parts := Split(r, '/'); parts[0] != "" && parts[0][0] != '-'
  {
    var parts := Split(r, '/');
    assert parts[0] in parts;
    JoinSplit(r, '/');
    JoinHead(parts);
    HeadIsPrefix(r);
  }

  /** Every canonical path is reachable: "./" in front of it is accepted and dropped. */
  lemma RelpathDropsDot(r: string)
    requires IsCanonical(r)
    ensures CanonicalRelpath("./" + r) == Ok(r)
  {
    DotParts(r);
    DotChars(r);
    CanonicalHead(r);
    JoinSplit(r, '/');
    CleanPath("./" + r, Split(r, '/'));
  }

  lemma HeadIsPrefix(r: string)
    requires r != ""
    ensures HasPrefix(r, [r[0]])
  {
  }

  lemma CleanPath(path: string, parts: seq<string>)
    requires path != "" && path[0] != '/' && path[0] != ':'
    requires forall k :: 0 <= k < |path| ==> PathChar(path[k])
    requires parts == KeptParts(Split(path, '/')) && parts != []
    requires ".." !in parts && ".git" !in parts && parts[0][0] != '-'
    ensures CanonicalRelpath(path) == Ok(Join(parts, '/'))
  {
    assert '\\' !in path;
  }

  /** Which paths are accepted: no control character, backslash or glob character, neither "/" nor ":" in
      front, and, the empty and "." components aside, at least one, none of them ".." or ".git", and no
      "-" in front of the first. */
  lemma RelpathAccepts(path: string)
    ensures var kept := KeptParts(Split(path, '/'));
            CanonicalRelpath(path).Ok? <==>
              && (forall k :: 0 <= k < |path| ==> path[k] >= ' ' && path[k] != '\U{7F}' && path[k] !in "\\*?[]")
              && path != "" && path[0] != '/' && path[0] != ':'
              && kept != [] && ".." !in kept && ".git" !in kept && kept[0][0] != '-'
  {
    var kept := KeptParts(Split(path, '/'));
    assert (forall k :: 0 <= k < |path| ==> path[k] >= ' ' && path[k] != '\U{7F}' && path[k] !in "\\*?[]")
        <==> forall k :: 0 <= k < |path| ==> PathChar(path[k]);
    if (forall k :: 0 <= k < |path| ==> PathChar(path[k])) && path != "" && path[0] != '/' && path[0] != ':'
       && kept != [] && ".." !in kept && ".git" !in kept && kept[0][0] != '-'
    {
      CleanPath(path, kept);
    }
  }

  /** When canonicalising twice changes nothing: exactly when the first component kept does not begin
      with ":". The ":" test reads the raw text, so './:x' is accepted and its own result refused. */
  lemma RelpathFixedPoint(path: string)
    requires CanonicalRelpath(path).Ok?
    ensures var r := CanonicalRelpath(path).value; var first := KeptParts(Split(path, '/'))[0];
            && (CanonicalRelpath(r) == Ok(r) <==> first[0] != ':')
            && (CanonicalRelpath(r) == Err(PathspecMagic) <==> first[0] == ':')
  {
    RelpathAccepted(path);
    var r := CanonicalRelpath(path).value;
    CanonicalHead(r);
    CanonicalParts(r);
    JoinHead(Split(r, '/'));
    JoinSplit(r, '/');
    if r[0] != ':' { CleanPath(r, Split(r, '/')); }
  }

  lemma SlashHead(s: string)
    requires s != "" && s[0] == '/'
    ensures Split(s, '/')[0] == ""
  {
  }

  lemma CanonicalParts(r: string)
    requires IsCanonical(r)
    ensures KeptParts(Split(r, '/')) == Split(r, '/') && r != "" && r[0] != '/'
    ensures ".." !in Split(r, '/') && ".git" !in Split(r, '/')
  {
    KeptPartsAll(Split(r, '/'));
    CanonicalHead(r);
    if r != "" && r[0] == '/' { SlashHead(r); }
  }

  lemma RelpathColonExample()
    ensures CanonicalRelpath("./" + ":x") == Ok(":x") && CanonicalRelpath(":x") == Err(PathspecMagic)
  {
    var r := ":x";
    SplitNoSep(r, '/');
    assert r[..1] == ":";
    RelpathDropsDot(r);
  }

  // An authority claim never uses globbing: its "dir/**" form reads as fnmatch does, plus the
  // directory itself, and its exact form matches only itself.
  lemma ClaimReadsAsFnmatch(base: string, path: string)
    requires IsLiteral(base)
    ensures AtOrUnder(path, base) <==> path == base || Fnmatch(path, base + "/**")
    ensures path == base <==> Fnmatch(path, base)
  {
    LiteralMatchesItself(base, path);
    assert base + "/**" == (base + "/") + "**";
    LiteralPrefix(base + "/", "**", path);
    if HasPrefix(path, base + "/") {
      var x := path[|base| + 1..];
      StarPrefix("*", x);
      StarMatchesAll(x[0..]);
      assert "*" + "*" == "**";
    }
  }

  lemma {:induction false} JoinConcat(a: seq<string>, b: seq<string>)
    requires a != [] && b != []
    ensures Join(a + b, '/') == Join(a, '/') + "/" + Join(b, '/')
  {
    assert (a + b)[1..] == a[1..] + b;
    if |a| > 1 {
      JoinConcat(a[1..], b);
    } else {
      assert a[1..] + b == b;
    }
  }

  /** Lying at or under a path is a prefix relation on components. */
  lemma AtOrUnderIsPrefix(f: string, p: string)
    ensures AtOrUnder(f, p) <==> Split(p, '/') <= Split(f, '/')
  {
    if HasPrefix(f, p + "/") {
      var x := f[|p| + 1..];
      assert f == p + "/" + x;
      SplitConcat(p, x, '/');
    }
    if Split(p, '/') <= Split(f, '/') {
      var rest := Split(f, '/')[|Split(p, '/')|..];
      assert Split(f, '/') == Split(p, '/') + rest;
      JoinSplit(f, '/');
      JoinSplit(p, '/');
      if rest == [] {
        assert Split(f, '/') == Split(p, '/');
      } else {
        JoinConcat(Split(p, '/'), rest);
        assert f[..|p| + 1] == p + "/";
      }
    }
  }

  lemma {:induction false} LiteralJoin(parts: seq<string>)
    requires forall k :: 0 <= k < |parts| ==> IsLiteral(parts[k])
    ensures IsLiteral(Join(parts, '/'))
  {
    if |parts| > 1 {
      LiteralJoin(parts[1..]);
    }
  }

  /** A pattern with no glob component matches only itself. */
  lemma GlobFreeMatch(f: string, p: string)
    requires !LiteralParts(Split(p, '/')).1
    ensures Fnmatch(f, p) <==> f == p
  {
    var parts := Split(p, '/');
    assert LiteralParts(parts).0 == parts;
    LiteralJoin(parts);
    JoinSplit(p, '/');
    LiteralMatchesItself(p, f);
  }

  /** A match of a pattern keeps the pattern's literal leading components. */
  lemma {:induction false} MatchKeepsPrefix(f: string, parts: seq<string>)
    requires parts != [] && forall k :: 0 <= k < |parts| ==> '/' !in parts[k]
    requires LiteralParts(parts).1 && Fnmatch(f, Join(parts, '/'))
    ensures LiteralParts(parts).0 <= Split(f, '/')
  {
    if IsLiteral(parts[0]) {
      var rest := Join(parts[1..], '/');
      assert |parts| > 1;
      assert IsLiteral(parts[0] + "/");
      LiteralPrefix(parts[0] + "/", rest, f);
      var x := f[|parts[0]| + 1..];
      assert f == parts[0] + "/" + x;
      MatchKeepsPrefix(x, parts[1..]);
      SplitConcat(parts[0], x, '/');
      SplitNoSep(parts[0], '/');
    }
  }

  lemma {:induction false} LiteralPartsAppend(parts: seq<string>, last: string)
    requires !IsLiteral(last)
    ensures LiteralParts(parts + [last]) == (LiteralParts(parts).0, true)
  {
    if parts == [] {
      assert [] + [last] == [last];
    } else {
      assert (parts + [last])[1..] == parts[1..] + [last];
      LiteralPartsAppend(parts[1..], last);
    }
  }

  // What a "dir/*" pattern of the edit hook covers lies under its directory.
  lemma DirnameUnder(f: string, base: string)
    requires Dirname(f) == base && base != "" && (base[0] != '/' || (|base| > 1 && base[1] != '/'))
    ensures AtOrUnder(f, base)
  {
    var i := LastSlash(f);
    var head := f[..i];
    assert head != "" && head[i - 1] == '/';
    if !(exists k :: 0 <= k < |head| && head[k] != '/') {
      assert false;
    }
    assert base == RStripChar(head, '/');
    assert f[|base|] == '/';
    assert f[..|base| + 1] == base + "/";
  }

  lemma NoDoubleSlash(f: string, k: nat)
    requires IsCanonical(f) && k + 1 < |f| && f[k] == '/'
    ensures f[k + 1] != '/'
  {
    var rest := f[k + 1..];
    assert f == f[..k] + "/" + rest;
    SplitConcat(f[..k], rest, '/');
    if rest[0] == '/' { SlashHead(rest); }
    assert Split(rest, '/')[0] in Split(f, '/');
  }

  lemma DirnameIs(f: string)
    requires IsCanonical(f)
    ensures Dirname(f) == if LastSlash(f) == 0 then "" else f[..LastSlash(f) - 1]
  {
    var i := LastSlash(f);
    if i > 0 {
      CanonicalParts(f);
      assert i > 1;
      if f[i - 2] == '/' { NoDoubleSlash(f, i - 2); }
      var head := f[..i];
      assert head[i - 2] != '/' && head[..i - 1][i - 2] != '/';
      assert RStripChar(head, '/') == RStripChar(head[..i - 1], '/') == head[..i - 1] == f[..i - 1];
    }
  }

  lemma LastSlashIs(f: string, i: nat)
    requires 0 < i <= |f| && f[i - 1] == '/' && '/' !in f[i..]
    ensures LastSlash(f) == i
  {
    var j := LastSlash(f);
    assert forall k :: i <= k < |f| ==> f[k] == f[i..][k - i];
    assert forall k :: j <= k < |f| ==> f[k] == f[j..][k - j];
  }

  // The edit hook's two directory forms on a canonical file: "base/**" is the directory and everything
  // under it, "base/*" only what stands directly in it.
  lemma DirectoryForms(f: string, base: string)
    requires IsCanonical(f)
    ensures ScopeCovers(f, base + "/**") <==> f == base || (|f| > |base| && f[..|base|] == base && f[|base|] == '/')
    ensures base != "" ==>
              (ScopeCovers(f, base + "/*") <==>
                |f| > |base| && f[..|base|] == base && f[|base|] == '/' && '/' !in f[|base| + 1..])
  {
    EndsWith(base, "/**");
    if HasPrefix(f, base + "/") {
      PrefixHead(f, base + "/");
      assert f[..|base|] == base;
    }
    if |f| > |base| && f[..|base|] == base && f[|base|] == '/' {
      assert f[..|base| + 1] == base + "/";
    }
    if base != "" { OneStar(f, base); }
  }

  lemma OneStar(f: string, base: string)
    requires IsCanonical(f) && base != ""
    ensures ScopeCovers(f, base + "/*") <==>
              |f| > |base| && f[..|base|] == base && f[|base|] == '/' && '/' !in f[|base| + 1..]
  {
    var p := base + "/*";
    EndsWith(base, "/*");
    assert p[|p| - 2] == '/' && "/**"[1] == '*';
    assert !HasSuffix(p, "/**");
    DirnameIs(f);
    if |f| > |base| && f[..|base|] == base && f[|base|] == '/' && '/' !in f[|base| + 1..] {
      LastSlashIs(f, |base| + 1);
    }
  }

  // A pattern "base/*" or "base/**" has the literal components of its base.
  lemma StarSplit(base: string, star: string)
    requires star == "*" || star == "**"
    ensures var l := Split(base + "/" + star, '/');
            l == Split(base, '/') + [star] && LiteralParts(l) == (LiteralParts(Split(base, '/')).0, true)
  {
    SplitConcat(base, star, '/');
    SplitNoSep(star, '/');
    assert !IsLiteral(star) by { assert IsMeta(star[0]); }
    LiteralPartsAppend(Split(base, '/'), star);
  }

  lemma PrefixHead(s: string, p: string)
    requires HasPrefix(s, p)
    ensures forall k :: 0 <= k < |p| ==> s[k] == p[k]
  {
    assert forall k :: 0 <= k < |p| ==> s[..|p|][k] == s[k];
  }

  lemma SlashesArePrefix(p: string)
    requires p != "" && p[0] == '/'
    ensures HasPrefix(p, "/")
    ensures |p| > 1 && p[1] == '/' ==> HasPrefix(p, "//")
  {
    assert p[..1] == "/";
    assert |p| > 1 && p[1] == '/' ==> p[..2] == "//";
  }

  // The edit hook's two directory forms cover only files under their directory.
  lemma DirectoryFormUnder(f: string, base: string, star: string)
    requires star == "*" || star == "**"
    requires ScopeCovers(f, base + "/" + star)
    requires star == "*" ==> base != "" && (base[0] == '/' ==> |base| > 1 && base[1] != '/')
    ensures AtOrUnder(f, base)
  {
    var p := base + "/" + star;
    if star == "**" {
      assert p == base + "/**";
      EndsWith(base, "/**");
    } else {
      assert p == base + "/*";
      EndsWith(base, "/*");
      assert p[|p| - 2] == '/' && "/**"[1] == '*';
      DirnameUnder(f, base);
    }
  }

  lemma EndsWith(base: string, suffix: string)
    ensures HasSuffix(base + suffix, suffix) && (base + suffix)[..|base|] == base
  {
  }

  // A "base/*" other than "/*" with no leading "//" has a base that names a directory.
  lemma StarBaseNames(base: string)
    requires base + "/*" != "/*" && !HasPrefix(base + "/*", "//")
    ensures base != "" && (base[0] == '/' ==> |base| > 1 && base[1] != '/')
  {
    var p := base + "/*";
    assert "" + "/*" == "/*";
    if base == "" {
    } else if base[0] == '/' && (|base| == 1 || base[1] == '/') {
      SlashesArePrefix(p);
    }
  }

  lemma DirectoryFormKeepsPrefix(f: string, base: string, star: string)
    requires star == "*" || star == "**"
    requires var p := base + "/" + star; p != "/*" && !HasPrefix(p, "//") && ScopeCovers(f, p)
    ensures LiteralParts(Split(base + "/" + star, '/')).0 <= Split(f, '/')
  {
    if star == "*" {
      assert base + "/" + star == base + "/*";
      StarBaseNames(base);
    }
    DirectoryFormUnder(f, base, star);
    AtOrUnderIsPrefix(f, base);
    StarSplit(base, star);
  }

  // Either reader, on a glob pattern other than "/*": the literal components are kept.
  lemma CoveredKeepsPrefix(f: string, p: string)
    requires Covered(f, p) && p != "/*" && LiteralParts(Split(p, '/')).1
    ensures LiteralParts(Split(p, '/')).0 <= Split(f, '/')
  {
    if Fnmatch(f, p) {
      SplitFree(p, '/');
      JoinSplit(p, '/');
      MatchKeepsPrefix(f, Split(p, '/'));
    } else {
      var star := if HasSuffix(p, "/**") then "**" else "*";
      var base := p[..|p| - |star| - 1];
      assert p == base + "/" + star;
      DirectoryFormKeepsPrefix(f, base, star);
    }
  }

  lemma PrefixesAgree<T>(a: seq<T>, b: seq<T>, whole: seq<T>)
    requires a <= whole && b <= whole
    ensures var n := Min(|a|, |b|); Take(a, n) == Take(b, n)
  {
  }

  lemma RootStarParts()
    ensures Split("/*", '/') == ["", "*"] && LiteralParts(["", "*"]) == ([""], true)
  {
    SplitConcat("", "*", '/');
    assert "" + "/" + "*" == "/*";
    SplitNoSep("*", '/');
    assert [""] + ["*"] == ["", "*"];
    assert !IsLiteral("*") by { assert IsMeta("*"[0]); }
    LiteralPartsAppend([""], "*");
    assert LiteralParts([""]).0 == [""];
  }

  // `may_overlap` on all strings; only the absolute pattern "/*" is set apart.
  lemma CoveredOverlaps(f: string, path: string, pattern: string)
    requires AtOrUnder(f, path) && Covered(f, pattern) && pattern != "/*"
    ensures MayOverlap(path, pattern)
  {
    if pattern != "" {
      AtOrUnderIsPrefix(f, path);
      var l := Split(pattern, '/');
      if LiteralParts(l).1 {
        CoveredKeepsPrefix(f, pattern);
        PrefixesAgree(Split(path, '/'), LiteralParts(l).0, Split(f, '/'));
      } else {
        GlobFreeIsExact(f, pattern);
        assert Split(path, '/') <= l;
      }
    }
  }

  // The conservative test never misses: a file at or under `path` that a reader covers by `pattern`
  // makes `may_overlap` true. Its callers give it patterns without a leading "/".
  lemma MayOverlapNeverMisses(f: string, path: string, pattern: string)
    requires !HasPrefix(pattern, "/")
    ensures AtOrUnder(f, path) && Covered(f, pattern) ==> MayOverlap(path, pattern)
  {
    assert HasPrefix("/*", "/");
    if AtOrUnder(f, path) && Covered(f, pattern) { CoveredOverlaps(f, path, pattern); }
  }

  /** Both readers read a glob-free pattern as exactly the path it spells. */
  lemma GlobFreeIsExact(f: string, p: string)
    requires !LiteralParts(Split(p, '/')).1 && Covered(f, p)
    ensures f == p
  {
    GlobFreeMatch(f, p);
    assert LiteralParts(Split(p, '/')).0 == Split(p, '/');
    LiteralJoin(Split(p, '/'));
    JoinSplit(p, '/');
    assert HasSuffix(p, "/**") ==> IsMeta(p[|p| - 1]);
    assert HasSuffix(p, "/*") ==> IsMeta(p[|p| - 1]);
  }

  /** For a glob-free pattern the test is exact: one path lies at or under the other. */
  lemma MayOverlapExactOnLiterals(path: string, pattern: string)
    requires pattern != "" && !LiteralParts(Split(pattern, '/')).1
    ensures MayOverlap(path, pattern) <==> AtOrUnder(path, pattern) || AtOrUnder(pattern, path)
  {
    GlobFreeMatch(path, pattern);
    AtOrUnderIsPrefix(path, pattern);
    AtOrUnderIsPrefix(pattern, path);
  }

  // "/*" compares with every absolute pattern as an overlap.
  lemma RootStarOverlaps(b: string)
    requires HasPrefix(b, "/")
    ensures AlgebraicOverlap("/*", b) && AlgebraicOverlap(b, "/*")
  {
    RootStarParts();
    SplitConcat("", b[1..], '/');
    assert b == "" + "/" + b[1..];
    var bs := Split(b, '/');
    assert bs[0] == "" && LiteralParts(bs).0[..1] == [""];
  }

  /** Pattern against pattern never misses: one file covered by both, by either reader, is overlap. */
  lemma AlgebraicNeverMisses(f: string, a: string, b: string)
    requires Covered(f, a) && Covered(f, b)
    ensures AlgebraicOverlap(a, b)
  {
    if a == "" || b == "" || HasPrefix(a, "/") != HasPrefix(b, "/") {
    } else if a == "/*" {
      RootStarOverlaps(b);
    } else if b == "/*" {
      RootStarOverlaps(a);
    } else {
      var (aLit, aGlob) := LiteralParts(Split(a, '/'));
      var (bLit, bGlob) := LiteralParts(Split(b, '/'));
      if !aGlob {
        GlobFreeIsExact(f, a);
        CoveredOverlaps(f, a, b);
      } else if !bGlob {
        GlobFreeIsExact(f, b);
        CoveredOverlaps(f, b, a);
      } else {
        CoveredKeepsPrefix(f, a);
        CoveredKeepsPrefix(f, b);
        PrefixesAgree(aLit, bLit, Split(f, '/'));
      }
    }
  }

  /** No part up to the k-th holds a glob character. */
  predicate PlainUpTo(parts: seq<string>, k: int) {
    forall j :: 0 <= j <= k && j < |parts| ==> IsLiteral(parts[j])
  }

  /** The parts of `a` and `b` agree wherever no earlier part of `b`, and not that one, holds a glob
      character. */
  ghost predicate AgreeUpTo(a: seq<string>, b: seq<string>) {
    forall k :: 0 <= k < |a| && k < |b| && PlainUpTo(b, k) ==> a[k] == b[k]
  }

  /** The same, for two patterns. */
  ghost predicate Compatible(a: seq<string>, b: seq<string>) {
    forall k :: 0 <= k < |a| && k < |b| && PlainUpTo(a, k) && PlainUpTo(b, k) ==> a[k] == b[k]
  }

  lemma {:induction false} LiteralRun(parts: seq<string>, k: nat)
    requires k < |parts|
    ensures k < |LiteralParts(parts).0| <==> PlainUpTo(parts, k)
  {
    if IsLiteral(parts[0]) && k > 0 {
      LiteralRun(parts[1..], k - 1);
      if PlainUpTo(parts[1..], k - 1) {
        assert forall j :: 1 <= j <= k ==> parts[j] == parts[1..][j - 1];
      } else {
        var j :| 0 <= j <= k - 1 && !IsLiteral(parts[1..][j]);
        assert !IsLiteral(parts[j + 1]);
      }
    }
  }

  lemma LiteralRuns(parts: seq<string>)
    ensures var literal := LiteralParts(parts).0;
            && |literal| <= |parts| && (forall k :: 0 <= k < |literal| ==> literal[k] == parts[k])
            && forall k :: 0 <= k < |parts| ==> (k < |literal| <==> PlainUpTo(parts, k))
  {
    forall k | 0 <= k < |parts| ensures k < |LiteralParts(parts).0| <==> PlainUpTo(parts, k) {
      LiteralRun(parts, k);
    }
  }

  lemma TakesAgree(a: seq<string>, b: seq<string>)
    ensures var n := Min(|a|, |b|); Take(a, n) == Take(b, n) <==> forall k :: 0 <= k < |a| && k < |b| ==> a[k] == b[k]
  {
    var n := Min(|a|, |b|);
    if Take(a, n) == Take(b, n) {
      assert forall k :: 0 <= k < n ==> a[k] == Take(a, n)[k] == Take(b, n)[k] == b[k];
    }
  }

  lemma AgreeIsTakes(a: seq<string>, b: seq<string>)
    ensures var literal := LiteralParts(b).0; var n := Min(|literal|, |a|);
            AgreeUpTo(a, b) <==> Take(a, n) == Take(literal, n)
  {
    TakesAgree(a, LiteralParts(b).0);
    LiteralRuns(b);
  }

  /** `may_overlap` is exact on components: it denies the overlap exactly when the path and the pattern
      differ at a component where the pattern still holds no glob character. */
  lemma MayOverlapIsExact(path: string, pattern: string)
    ensures MayOverlap(path, pattern) <==> pattern == "" || AgreeUpTo(Split(path, '/'), Split(pattern, '/'))
  {
    var p, l := Split(path, '/'), Split(pattern, '/');
    AgreeIsTakes(p, l);
    SplitFree(pattern, '/');
    JoinSplit(pattern, '/');
    if LiteralParts(l).1 {
      if Fnmatch(path, pattern) {
        MatchKeepsPrefix(path, l);
        PrefixesAgree(p, LiteralParts(l).0, p);
      }
    } else {
      GlobFreeMatch(path, pattern);
      assert LiteralParts(l).0 == l;
      TakesAgree(p, l);
    }
  }

  lemma CompatibleIsTakes(a: seq<string>, b: seq<string>)
    ensures var x, y := LiteralParts(a).0, LiteralParts(b).0; var n := Min(|x|, |y|);
            Compatible(a, b) <==> Take(x, n) == Take(y, n)
  {
    TakesAgree(LiteralParts(a).0, LiteralParts(b).0);
    LiteralRuns(a);
    LiteralRuns(b);
  }

  lemma LiteralAgrees(a: seq<string>, b: seq<string>)
    requires !LiteralParts(a).1
    ensures Compatible(a, b) <==> AgreeUpTo(a, b)
    ensures Compatible(b, a) <==> AgreeUpTo(a, b)
  {
    assert LiteralParts(a).0 == a && forall j :: 0 <= j < |a| ==> IsLiteral(a[j]);
  }

  /** The pattern test is exact on components: it denies the overlap of two relative, or two absolute,
      patterns exactly when they differ at a component up to which neither holds a glob character. */
  lemma AlgebraicIsExact(a: string, b: string)
    ensures AlgebraicOverlap(a, b) <==>
              || a == "" || b == "" || (a[0] == '/') != (b[0] == '/')
              || Compatible(Split(a, '/'), Split(b, '/'))
  {
    if a != "" && b != "" {
      HeadSlash(a);
      HeadSlash(b);
      MayOverlapIsExact(a, b);
      MayOverlapIsExact(b, a);
      CompatibleIsTakes(Split(a, '/'), Split(b, '/'));
      if !LiteralParts(Split(a, '/')).1 {
        LiteralAgrees(Split(a, '/'), Split(b, '/'));
      } else if !LiteralParts(Split(b, '/')).1 {
        LiteralAgrees(Split(b, '/'), Split(a, '/'));
      }
    }
  }

  lemma HeadSlash(s: string)
    requires s != ""
    ensures HasPrefix(s, "/") <==> s[0] == '/'
  {
    if HasPrefix(s, "/") { PrefixHead(s, "/"); }
    if s[0] == '/' { SlashesArePrefix(s); }
  }

  /** The pattern test does not depend on the order of its arguments. */
  lemma AlgebraicSymmetric(a: string, b: string)
    ensures AlgebraicOverlap(a, b) == AlgebraicOverlap(b, a)
  {
    if a != "" && b != "" && !LiteralParts(Split(a, '/')).1 && !LiteralParts(Split(b, '/')).1 {
      MayOverlapExactOnLiterals(a, b);
      MayOverlapExactOnLiterals(b, a);
    }
  }

  /** A canonical pattern never begins with two slashes, so `Covered` reads it with both readers. */
  lemma CanonicalPatternSlash(pattern: string, root: string)
    ensures !HasPrefix(CanonicalPattern(pattern, root), "//")
  {
    var pat := Strip(pattern);
    if HasPrefix(CanonicalPattern(pattern, root), "//") {
      PrefixHead(CanonicalPattern(pattern, root), "//");
    }
    if pat != "" && !HasPrefix(pat, "/") {
      NormpathRelative(pat);
      if HasPrefix(Normpath(pat), "//") {
        PrefixHead(Normpath(pat), "//");
        SlashesArePrefix(Normpath(pat));
      }
    }
  }

  predicate NameParts(parts: seq<string>) {
    forall k :: 0 <= k < |parts| ==> parts[k] != "" && '/' !in parts[k]
  }

  lemma {:induction false} NormCompsNames(comps: seq<string>, acc: seq<string>, rooted: bool)
    requires forall k :: 0 <= k < |comps| ==> '/' !in comps[k]
    requires NameParts(acc)
    ensures NameParts(NormComps(comps, acc, rooted))
    decreases |comps|
  {
    if comps != [] {
      assert forall k :: 0 <= k < |comps| - 1 ==> comps[1..][k] == comps[k + 1];
      if comps[0] == "" || comps[0] == "." {
        NormCompsNames(comps[1..], acc, rooted);
      } else if comps[0] != ".." || (!rooted && acc == []) || (acc != [] && acc[|acc| - 1] == "..") {
        NormCompsNames(comps[1..], acc + [comps[0]], rooted);
      } else if acc != [] {
        NormCompsNames(comps[1..], acc[..|acc| - 1], rooted);
      } else {
        NormCompsNames(comps[1..], acc, rooted);
      }
    }
  }

  /** A relative path stays relative under normalisation. */
  lemma NormpathRelative(path: string)
    requires !HasPrefix(path, "/")
    ensures !HasPrefix(Normpath(path), "/")
  {
    if path != "" {
      SplitFree(path, '/');
      NormCompsNames(Split(path, '/'), [], false);
      assert InitialSlashes(path) == "";
      var parts := NormComps(Split(path, '/'), [], false);
      if parts != [] {
        assert parts[0] != "" && '/' !in parts[0];
        JoinHead(parts);
        assert "" + Join(parts, '/') == Join(parts, '/');
      }
    }
  }
}
