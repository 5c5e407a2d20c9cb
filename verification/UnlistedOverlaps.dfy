// Overlap with no file listing: patterns as they are written, not as they are compared.
module UnlistedOverlaps {
  import opened Wrappers
  import opened PyStrings
  import opened Globs
  import opened PosixPaths
  import opened ScopePaths
  import opened LockReaders
  import opened FileIndexes

  /** `f` agrees with what the overlap test reads of the canonical pattern `c`. */
  predicate KeepsPrefix(f: string, c: string) {
    c == "" ||
    var (literal, glob) := LiteralParts(Split(c, '/'));
    if glob then literal <= Split(f, '/') else f == c
  }

  lemma PrefixesOverlap(f: string, a: string, b: string)
    requires KeepsPrefix(f, a) && KeepsPrefix(f, b)
    ensures AlgebraicOverlap(a, b)
  {
    if a != "" && b != "" {
      var (aLit, aGlob) := LiteralParts(Split(a, '/'));
      var (bLit, bGlob) := LiteralParts(Split(b, '/'));
      if !aGlob {
        if bGlob { PrefixesAgree(Split(a, '/'), bLit, Split(f, '/')); }
      } else if !bGlob {
        PrefixesAgree(Split(b, '/'), aLit, Split(f, '/'));
      } else {
        PrefixesAgree(aLit, bLit, Split(f, '/'));
      }
    }
  }

  lemma DroppedIsLiteral(part: string)
    requires part == "" || part == "."
    ensures IsLiteral(part)
  {
    assert part == "." ==> part[0] == '.';
  }

  lemma {:induction false} KeptLiteral(parts: seq<string>)
    ensures LiteralParts(KeptParts(parts)) == (KeptParts(LiteralParts(parts).0), LiteralParts(parts).1)
  {
    if parts != [] {
      KeptLiteral(parts[1..]);
      var rest, literal := KeptParts(parts[1..]), LiteralParts(parts[1..]).0;
      assert ([parts[0]] + literal)[1..] == literal && ([parts[0]] + rest)[1..] == rest;
      if parts[0] == "" || parts[0] == "." {
        DroppedIsLiteral(parts[0]);
        assert KeptParts(parts) == [] + rest == rest;
        assert KeptParts([parts[0]] + literal) == [] + KeptParts(literal) == KeptParts(literal);
      }
    }
  }

  lemma CanonicalKeepsAll(f: string, parts: seq<string>)
    requires IsCanonical(f) && parts <= Split(f, '/')
    ensures KeptParts(parts) == parts
  {
    forall p | p in parts ensures p != "" && p != "." {
      assert p in Split(f, '/');
    }
    KeptPartsAll(parts);
  }

  lemma GlobSpellingKeeps(f: string, parts: seq<string>)
    requires IsCanonical(f) && parts != [] && forall k :: 0 <= k < |parts| ==> '/' !in parts[k]
    requires LiteralParts(parts).1 && Fnmatch(f, Join(parts, '/'))
    ensures KeepsPrefix(f, Join(KeptParts(parts), '/'))
  {
    var kept, literal := KeptParts(parts), LiteralParts(parts).0;
    MatchKeepsPrefix(f, parts);
    KeptLiteral(parts);
    CanonicalKeepsAll(f, literal);
    assert forall k :: 0 <= k < |kept| ==> kept[k] in kept;
    SplitJoin(kept, '/');
  }

  /** A match of any spelling agrees with the components the spelling keeps. */
  lemma SpellingKeeps(f: string, s: string)
    requires IsCanonical(f) && Fnmatch(f, s)
    ensures KeepsPrefix(f, Join(KeptParts(Split(s, '/')), '/'))
  {
    SplitFree(s, '/');
    JoinSplit(s, '/');
    if LiteralParts(Split(s, '/')).1 {
      GlobSpellingKeeps(f, Split(s, '/'));
    } else {
      GlobFreeMatch(f, s);
      CanonicalKeepsAll(f, Split(s, '/'));
    }
  }

  lemma {:induction false} NormCompsKept(comps: seq<string>, acc: seq<string>)
    requires ".." !in comps
    ensures NormComps(comps, acc, false) == acc + KeptParts(comps)
    decreases |comps|
  {
    if comps == [] {
      assert acc + [] == acc;
    } else {
      var head, rest := comps[0], comps[1..];
      assert head in comps && head != ".." && ".." !in rest;
      if head == "" || head == "." {
        NormCompsKept(rest, acc);
        assert KeptParts(comps) == [] + KeptParts(rest) == KeptParts(rest);
      } else {
        NormCompsKept(rest, acc + [head]);
        AppendAssoc(acc, [head], KeptParts(rest));
      }
    }
  }

  lemma AppendAssoc<T>(a: seq<T>, b: seq<T>, c: seq<T>)
    ensures a + b + c == a + (b + c)
  {
  }

  /** Without "..", canonicalising only drops the empty and "." components. */
  lemma CanonicalIsKept(p: string, root: string)
    requires Strip(p) == p && !HasPrefix(p, "/") && ".." !in Split(p, '/')
    ensures CanonicalPattern(p, root) == Join(KeptParts(Split(p, '/')), '/')
  {
    var kept := KeptParts(Split(p, '/'));
    if p != "" {
      NormCompsKept(Split(p, '/'), []);
      assert [] + kept == kept && "" + Join(kept, '/') == Join(kept, '/');
      if kept != [] {
        JoinHead(kept);
        assert kept[0] in kept && kept[0] != ".";
        assert |kept| > 1 ==> |Join(kept, '/')| > 1;
      }
    }
  }

  /** The lock readers' form of a pattern keeps the same components. */
  lemma LexicalKept(p: string)
    requires !HasPrefix(p, "/")
    ensures KeptParts(Split(LexicalPattern(p), '/')) == KeptParts(Split(p, '/'))
  {
    var kept := KeptParts(Split(p, '/'));
    if kept == [] {
      SplitNoSep(".", '/');
      assert KeptParts(["."]) == [];
    } else {
      SplitFree(p, '/');
      assert forall k :: 0 <= k < |kept| ==> kept[k] in kept;
      SplitJoin(kept, '/');
      KeptPartsAll(kept);
      var s := Join(kept, '/');
      assert "" + s == s && s + "/" == s + "/" + "";
      SplitConcat(s, "", '/');
      KeptSlash(kept);
    }
  }

  lemma {:induction false} KeptSlash(parts: seq<string>)
    ensures KeptParts(parts + [""]) == KeptParts(parts)
  {
    if parts == [] {
      assert [] + [""] == [""];
    } else {
      assert (parts + [""])[1..] == parts[1..] + [""];
      KeptSlash(parts[1..]);
    }
  }

  /** A file the edit hook matches agrees with the canonical form of a relative pattern. */
  lemma ScopeKeepsPrefix(f: string, p: string, root: string)
    requires Strip(p) == p && !HasPrefix(p, "/") && ScopeMatches(f, p, root)
    ensures KeepsPrefix(f, CanonicalPattern(p, root))
  {
    var c := CanonicalPattern(p, root);
    CanonicalPatternSlash(p, root);
    NormpathRelative(p);
    assert HasPrefix("/*", "/");
    if c != "" {
      if LiteralParts(Split(c, '/')).1 {
        CoveredKeepsPrefix(f, c);
      } else {
        GlobFreeIsExact(f, c);
      }
    }
  }

  /** The first component is "..". */
  predicate ParentFirst(s: string) {
    Split(s, '/')[0] == ".."
  }

  /** Some component is "..", and no class is open where its "/" stands. */
  predicate ParentOutside(p: string) {
    ParentFirst(p) || exists k :: 0 <= k < |p| && p[k] == '/' && AtToken(p, k) && ParentFirst(p[k + 1..])
  }

  predicate EndsIn<T(==)>(s: seq<T>, t: seq<T>) {
    |t| <= |s| && s[|s| - |t|..] == t
  }

  /** The pattern's tokens end in those that `p[n..]` has by itself. */
  predicate ReadsOn(p: string, n: nat) {
    n <= |p| && EndsIn(Tokens(p), Tokens(p[n..]))
  }

  lemma TailEndsIn<T>(s: seq<T>, t: seq<T>)
    requires s != [] && s[1..] == t
    ensures EndsIn(s, t)
  {
  }

  lemma TokensAfterFirst(p: string)
    requires p != ""
    ensures var toks := Tokens(p); toks != [] && toks[1..] == Tokens(p[TokenWidth(p)..])
  {
  }

  lemma FirstReadsOn(p: string)
    requires p != ""
    ensures ReadsOn(p, TokenWidth(p))
  {
    TokensAfterFirst(p);
    TailEndsIn(Tokens(p), Tokens(p[TokenWidth(p)..]));
  }

  lemma EndsInTrans<T>(a: seq<T>, b: seq<T>, c: seq<T>)
    requires EndsIn(a, b) && EndsIn(b, c)
    ensures EndsIn(a, c)
  {
    assert a[|a| - |c|..] == a[|a| - |b|..][|b| - |c|..];
  }

  lemma ReadsOnTrans(p: string, j: nat, q: string, n: nat)
    requires ReadsOn(p, j) && q == p[j..] && j <= n && ReadsOn(q, n - j)
    ensures ReadsOn(p, n)
  {
    assert q[n - j..] == p[n..];
    EndsInTrans(Tokens(p), Tokens(q), Tokens(p[n..]));
  }

  lemma NextToken(p: string, n: nat) returns (w: nat, q: string)
    requires 0 < n <= |p| && AtToken(p, n)
    ensures 0 < w <= n && q == p[w..] && ReadsOn(p, w) && AtToken(q, n - w)
  {
    w, q := TokenWidth(p), p[TokenWidth(p)..];
    FirstReadsOn(p);
  }

  lemma {:induction false} AtTokenReadsOn(p: string, n: nat)
    requires n <= |p| && AtToken(p, n)
    ensures ReadsOn(p, n)
  {
    if n == 0 {
      assert p[0..] == p;
    } else {
      var w, q := NextToken(p, n);
      AtTokenReadsOn(q, n - w);
      ReadsOnTrans(p, w, q, n);
    }
  }

  lemma {:induction false} MatchSuffix(f: string, front: seq<Token>, back: seq<Token>) returns (k: nat)
    requires Match(f, front + back)
    ensures k <= |f| && Match(f[k..], back)
    decreases |f| + |front|
  {
    if front == [] {
      k := 0;
      assert front + back == back && f[0..] == f;
    } else {
      assert (front + back)[1..] == front[1..] + back;
      if front[0].Star? && Match(f, front[1..] + back) {
        k := MatchSuffix(f, front[1..], back);
      } else {
        var j := MatchSuffix(f[1..], if front[0].Star? then front else front[1..], back);
        k := j + 1;
        assert f[1..][j..] == f[k..];
      }
    }
  }

  /** What the whole tokens at a pattern's front leave over is matched by a suffix. */
  lemma SuffixMatch(f: string, p: string, n: nat) returns (k: nat)
    requires n <= |p| && AtToken(p, n) && Fnmatch(f, p)
    ensures k <= |f| && Fnmatch(f[k..], p[n..])
  {
    AtTokenReadsOn(p, n);
    var front := Tokens(p)[..|Tokens(p)| - |Tokens(p[n..])|];
    assert Tokens(p) == front + Tokens(p[n..]);
    k := MatchSuffix(f, front, Tokens(p[n..]));
  }

  lemma ParentHead(t: string, p: string)
    requires ParentFirst(p) && Fnmatch(t, p)
    ensures ".." in Split(t, '/')
  {
    var parts := Split(p, '/');
    SplitFree(p, '/');
    JoinSplit(p, '/');
    assert IsLiteral(parts[0]) && LiteralParts(parts).0[0] == "..";
    if LiteralParts(parts).1 {
      MatchKeepsPrefix(t, parts);
      assert Split(t, '/')[0] == "..";
    } else {
      GlobFreeMatch(t, p);
    }
  }

  lemma ParentUnder(f: string, k: nat, p: string)
    requires k < |f| && f[k] == '/' && ParentFirst(p) && Fnmatch(f[k + 1..], p)
    ensures ".." in Split(f, '/')
  {
    var t := f[k + 1..];
    assert f == f[..k] + "/" + t;
    SplitConcat(f[..k], t, '/');
    ParentHead(t, p);
  }

  lemma ParentAfter(f: string, p: string, n: nat)
    requires n < |p| && p[n] == '/' && AtToken(p, n) && ParentFirst(p[n + 1..]) && Fnmatch(f, p)
    ensures ".." in Split(f, '/')
  {
    var rest := p[n + 1..];
    var k := SuffixMatch(f, p, n);
    assert p[n..] == "/" + rest;
    SlashPattern(rest, f[k..]);
    assert f[k..][1..] == f[k + 1..];
    ParentUnder(f, k, rest);
  }

  /** Only inside a class can a ".." of a pattern match a canonical path. */
  lemma ParentNeverMatches(f: string, p: string)
    requires IsCanonical(f) && ParentOutside(p)
    ensures !Fnmatch(f, p)
  {
    if Fnmatch(f, p) {
      if ParentFirst(p) {
        ParentHead(f, p);
      } else {
        var n :| 0 <= n < |p| && p[n] == '/' && AtToken(p, n) && ParentFirst(p[n + 1..]);
        ParentAfter(f, p, n);
      }
    }
  }

  lemma {:induction false} NoClassBefore(p: string, k: nat)
    requires k <= |p| && '[' !in p[..k]
    ensures AtToken(p, k)
  {
    if k == 0 {
    } else {
      assert p[0] in p[..k];
      assert p[1..][..k - 1] == p[..k][1..];
      NoClassBefore(p[1..], k - 1);
    }
  }

  lemma JoinAt(parts: seq<string>, i: nat)
    requires 0 < i < |parts|
    ensures Join(parts, '/') == Join(parts[..i], '/') + "/" + Join(parts[i..], '/')
  {
    assert parts[..i] + parts[i..] == parts;
    JoinConcat(parts[..i], parts[i..]);
  }

  /** In particular a ".." with no "[" before it stands outside. */
  lemma NoClassIsOutside(p: string, i: nat)
    requires i < |Split(p, '/')| && Split(p, '/')[i] == ".." && '[' !in Join(Split(p, '/')[..i], '/')
    ensures ParentOutside(p)
  {
    if i > 0 {
      var parts := Split(p, '/');
      var front, rest := Join(parts[..i], '/'), Join(parts[i..], '/');
      SplitFree(p, '/');
      JoinSplit(p, '/');
      JoinAt(parts, i);
      SplitJoin(parts[i..], '/');
      assert p[|front|] == '/' && p[|front| + 1..] == rest && p[..|front|] == front;
      NoClassBefore(p, |front|);
    }
  }

  /** The readers and the overlap test read the pattern alike: it names no parent, or names one where no
      class is open, or what it spells out before its first glob still stands in the canonical form. */
  predicate ReadAlike(p: string) {
    ".." !in Split(p, '/') || ParentOutside(p) || SpelledOut(p)
  }

  /** What the canonical form spells out before its first glob, the pattern spells out as written. */
  predicate SpelledOut(p: string) {
    var (canonical, glob) := LiteralParts(Split(CanonicalPattern(p, ""), '/'));
    glob && canonical <= LiteralParts(KeptParts(Split(p, '/'))).0
  }

  lemma SpelledOutKeeps(f: string, p: string)
    requires IsCanonical(f) && SpelledOut(p) && Fnmatch(f, p)
    ensures KeepsPrefix(f, CanonicalPattern(p, ""))
  {
    var kept := KeptParts(Split(p, '/'));
    SpellingKeeps(f, p);
    if kept != [] {
      SplitFree(p, '/');
      assert forall k :: 0 <= k < |kept| ==> kept[k] in kept;
      SplitJoin(kept, '/');
      JoinHead(kept);
    }
  }

  lemma PlacedMatch(f: string, p: string, root: string)
    requires IsCanonical(f) && Strip(f) == f && Strip(p) == p && !HasPrefix(p, "/") && ".." !in Split(p, '/')
    requires ReaderCovers(PlaceQuery(f, root), PlaceLock(p, root))
    ensures Fnmatch(f, p) || Fnmatch(f, LexicalPattern(p))
  {
    if RelativePattern(p) && LexicalRoot(root).Some? && NUL !in root {
      CoverageIsFnmatch(f, p, root);
    }
  }

  /** Without "..", the lock readers compare some spelling of the pattern. */
  lemma PlacedKeepsPrefix(f: string, p: string, root: string)
    requires IsCanonical(f) && Strip(f) == f && Strip(p) == p && !HasPrefix(p, "/") && ".." !in Split(p, '/')
    requires ReaderCovers(PlaceQuery(f, root), PlaceLock(p, root))
    ensures KeepsPrefix(f, CanonicalPattern(p, root))
  {
    PlacedMatch(f, p, root);
    CanonicalIsKept(p, root);
    if Fnmatch(f, p) {
      SpellingKeeps(f, p);
    } else {
      LexicalKept(p);
      SpellingKeeps(f, LexicalPattern(p));
    }
  }

  /** A pattern with ".." they compare as raw text. */
  lemma RawText(f: string, p: string, root: string)
    requires Strip(p) == p && ".." in Split(p, '/') && ReaderCovers(PlaceQuery(f, root), PlaceLock(p, root))
    ensures Fnmatch(f, p)
  {
  }

  lemma ReaderKeepsPrefix(f: string, p: string, root: string)
    requires IsCanonical(f) && Strip(f) == f && Strip(p) == p && !HasPrefix(p, "/")
    requires ReadAlike(p) && ReaderCovers(PlaceQuery(f, root), PlaceLock(p, root))
    ensures KeepsPrefix(f, CanonicalPattern(p, root))
  {
    if ".." !in Split(p, '/') {
      PlacedKeepsPrefix(f, p, root);
    } else {
      RawText(f, p, root);
      if ParentOutside(p) { ParentNeverMatches(f, p); }
      SpelledOutKeeps(f, p);
      assert CanonicalPattern(p, root) == CanonicalPattern(p, "");
    }
  }

  /** With no file listing either, a real collision is never missed: a canonical file that the
      readers say both patterns cover makes them overlap. */
  lemma UnlistedOverlapComplete(m: Matcher, a: string, b: string, root: string, f: string)
    requires IsCanonical(f) && Strip(f) == f
    requires Strip(a) == a && !HasPrefix(a, "/") && ReadAlike(a)
    requires Strip(b) == b && !HasPrefix(b, "/") && ReadAlike(b)
    ensures Matches(a, root, f) && Matches(b, root, f) ==> PatternsOverlap(m, a, b, None, root)
  {
    if Matches(a, root, f) && Matches(b, root, f) {
      MatchKeeps(a, root, f);
      MatchKeeps(b, root, f);
      PrefixesOverlap(f, CanonicalPattern(a, root), CanonicalPattern(b, root));
    }
  }

  /** A file that either reader says the pattern covers agrees with its canonical form. */
  lemma MatchKeeps(p: string, root: string, f: string)
    requires IsCanonical(f) && Strip(f) == f && Strip(p) == p && !HasPrefix(p, "/")
    requires ReadAlike(p) && Matches(p, root, f)
    ensures KeepsPrefix(f, CanonicalPattern(p, root))
  {
    if ScopeMatches(f, p, root) {
      ScopeKeepsPrefix(f, p, root);
    } else {
      ReaderKeepsPrefix(f, p, root);
    }
  }

  // ---------------------------------------------------------------- what the condition shuts out

  lemma StripEnds(s: string)
    requires s != "" && !IsSpace(s[0]) && !IsSpace(s[|s| - 1])
    ensures Strip(s) == s
  {
  }

  /** A ".." after the first component removes it. */
  lemma StepsUp(p: string, head: string, tail: seq<string>, root: string)
    requires Strip(p) == p && p != "" && !HasPrefix(p, "/") && Split(p, '/') == [head, ".."] + tail
    requires PlainPart(head) && PlainParts(tail) && |tail| > 1
    ensures CanonicalPattern(p, root) == Join(tail, '/')
  {
    var comps := [head, ".."] + tail;
    assert comps[1..][1..] == tail && comps[1..][0] == "..";
    assert [] + [head] == [head] && [head][..0] == [];
    assert NormComps(comps, [], false) == NormComps(comps[1..], [head], false) == NormComps(tail, [], false);
    NormCompsPlain(tail, [], false);
    assert [] + tail == tail && "" + Join(tail, '/') == Join(tail, '/');
    assert |Join(tail, '/')| > 1;
  }

  /** Glob patterns under different literal directories are compared as apart. */
  lemma HeadsApart(a: string, b: string)
    requires a != "" && b != "" && !HasPrefix(a, "/") && !HasPrefix(b, "/")
    requires LiteralParts(Split(a, '/')).1 && LiteralParts(Split(b, '/')).1
    requires IsLiteral(Split(a, '/')[0]) && IsLiteral(Split(b, '/')[0]) && Split(a, '/')[0] != Split(b, '/')[0]
    ensures !AlgebraicOverlap(a, b)
  {
    var x, y := LiteralParts(Split(a, '/')).0, LiteralParts(Split(b, '/')).0;
    assert x[0] == Split(a, '/')[0] && y[0] == Split(b, '/')[0];
    var n := Min(|x|, |y|);
    assert Take(x, n)[0] != Take(y, n)[0];
  }

  lemma GlobAfter(head: string, next: string, rest: seq<string>)
    requires IsLiteral(head) && !IsLiteral(next)
    ensures LiteralParts([head, next] + rest) == ([head], true)
  {
    var tail := [next] + rest;
    assert ([head, next] + rest)[1..] == tail && tail[0] == next;
    assert LiteralParts(tail).0 == [];
    assert [head] + [] == [head];
  }

  /** A ".." pattern that matches a file only as text, and a pattern the test compares as apart from it. */
  lemma RawMiss(m: Matcher, a: string, b: string, f: string)
    requires IsCanonical(f) && Strip(f) == f && Fnmatch(f, a) && Fnmatch(f, b)
    requires Strip(a) == a && ".." in Split(a, '/') && RelativePattern(b)
    requires a != b && !Fnmatch(a, b) && !Fnmatch(b, a)
    requires !AlgebraicOverlap(CanonicalPattern(a, ""), CanonicalPattern(b, ""))
    ensures Matches(a, "", f) && Matches(b, "", f) && !PatternsOverlap(m, a, b, None, "")
  {
    CoverageIsFnmatch(f, b, "");
  }

  const HIDDEN := "[x/../y/]/c"

  lemma HiddenSplit()
    ensures Split(HIDDEN, '/') == ["[x", ".."] + ["y", "]", "c"]
  {
    var parts := ["[x", "..", "y", "]", "c"];
    assert Join(parts[3..], '/') == "]/c";
    assert Join(parts[2..], '/') == "y/]/c";
    assert Join(parts[1..], '/') == "../y/]/c";
    assert Join(parts, '/') == HIDDEN;
    SplitJoin(parts, '/');
  }

  lemma HiddenClass()
    ensures CloseAt(HIDDEN, 1) == 8 && HIDDEN[9..] == "/c"
  {
    assert FindChar(HIDDEN, ']', 8) == 8;
    assert FindChar(HIDDEN, ']', 6) == 8;
    assert FindChar(HIDDEN, ']', 4) == 8;
    assert FindChar(HIDDEN, ']', 2) == 8;
  }

  // A class that lists "x" first, then glob-free text.
  lemma ClassThenText(p: string, j: nat, text: string, s: string)
    requires 2 < j < |p| && p[0] == '[' && CloseAt(p, 1) == j && p[1] == 'x' && p[2] != '-' && p[j + 1..] == text
    requires IsLiteral(text) && s != "" && s[0] == 'x'
    ensures Fnmatch(s, p) <==> s[1..] == text
  {
    var body := p[1..j];
    var items := Items(body);
    assert body[0] == 'x' && body[1] == p[2];
    assert items == [One('x')] + Items(body[1..]) && items[0] == One('x');
    assert ClassOf(body) == Class(false, items);
    assert One('x') in items && InItem(One('x'), s[0]);
    assert Tokens(p)[1..] == Tokens(text);
    LiteralMatchesItself(text, s[1..]);
  }

  lemma HiddenForm(a: string, head: string, tail: seq<string>)
    requires a != "" && a[0] == '[' && !IsSpace(a[|a| - 1]) && Split(a, '/') == [head, ".."] + tail
    requires PlainPart(head) && PlainParts(tail) && |tail| > 1
    ensures Strip(a) == a && ".." in Split(a, '/')
    ensures var c := CanonicalPattern(a, ""); c != "" && !HasPrefix(c, "/") && Split(c, '/') == tail
  {
    StripEnds(a);
    assert Split(a, '/')[1] == "..";
    StepsUp(a, head, tail, "");
    assert forall k :: 0 <= k < |tail| ==> PlainPart(tail[k]);
    SplitJoin(tail, '/');
    JoinHead(tail);
  }

  lemma HiddenApart(a: string, b: string)
    requires a != "" && a[0] == '[' && !IsSpace(a[|a| - 1]) && Split(a, '/') == ["[x", ".."] + ["y", "]", "c"]
    requires b != "" && !HasPrefix(b, "/") && Split(b, '/') == ["x", "?"] + []
    ensures Strip(a) == a && ".." in Split(a, '/') && !AlgebraicOverlap(CanonicalPattern(a, ""), b)
  {
    var tail := ["y", "]", "c"];
    HiddenForm(a, "[x", tail);
    assert tail == ["y", "]"] + ["c"];
    assert IsMeta("]"[0]) && IsMeta("?"[0]);
    GlobAfter("y", "]", ["c"]);
    GlobAfter("x", "?", []);
    HeadsApart(CanonicalPattern(a, ""), b);
  }

  lemma HiddenText() returns (a: string)
    ensures |a| == 11 && a[0] == '[' && a[1] == 'x' && a[2] == '/' && a[10] == 'c'
    ensures Split(a, '/') == ["[x", ".."] + ["y", "]", "c"] && CloseAt(a, 1) == 8 && a[9..] == "/c"
  {
    a := HIDDEN;
    HiddenSplit();
    HiddenClass();
  }

  /** The pattern "[x/../y/]/c", by what is needed of it. */
  lemma HiddenPattern() returns (a: string)
    ensures a != "" && a[0] == '[' && !IsSpace(a[|a| - 1]) && Split(a, '/') == ["[x", ".."] + ["y", "]", "c"]
    ensures forall s :: s != "" && s[0] == 'x' ==> (Fnmatch(s, a) <==> s[1..] == "/c")
  {
    a := HiddenText();
    assert IsLiteral("/c");
    forall s | s != "" && s[0] == 'x' ensures Fnmatch(s, a) <==> s[1..] == "/c" {
      ClassThenText(a, 8, "/c", s);
    }
  }

  lemma TwoParts(b: string, last: string)
    requires b == "x/" + last && '/' !in last
    ensures Split(b, '/') == ["x", last]
  {
    assert b == "x" + "/" + last;
    SplitConcat("x", last, '/');
    SplitNoSep("x", '/');
    SplitNoSep(last, '/');
  }

  lemma OneDirectory(last: string)
    requires PlainPart(last) && NUL !in last && !IsSpace(last[|last| - 1])
    ensures var b := "x/" + last; Split(b, '/') == ["x", last]
    ensures var b := "x/" + last; RelativePattern(b) && CanonicalPattern(b, "") == b
  {
    var b := "x/" + last;
    TwoParts(b, last);
    StripEnds(b);
    KeptPartsAll(["x", last]);
    CanonicalIsKept(b, "");
    JoinSplit(b, '/');
  }

  lemma AnyOne(s: string)
    ensures Fnmatch(s, "?") <==> |s| == 1
  {
    var toks := Tokens("?");
    assert "?"[1..] == "" && toks == [AnyChar] + Tokens("") && toks[1..] == [];
    assert s != "" ==> (Match(s[1..], []) <==> s[1..] == "");
  }

  lemma QuestionUnder(s: string)
    requires s != ""
    ensures Fnmatch(s, "x/" + "?") <==> HasPrefix(s, "x/") && |s| == 3
  {
    LiteralPrefix("x/", "?", s);
    if HasPrefix(s, "x/") { AnyOne(s[2..]); }
  }

  lemma OneFile() returns (f: string)
    ensures IsCanonical(f) && Strip(f) == f && |f| == 3 && HasPrefix(f, "x/") && f[0] == 'x' && f[1..] == "/c"
  {
    f := "x/" + "c";
    OneDirectory("c");
    var parts := Split(f, '/');
    assert PlainPart(parts[0]) && PlainPart(parts[1]);
    assert f[0] != "-"[0] && f[..2] == "x/" && f[1..] == "/c";
    if HasPrefix(f, "-") { PrefixHead(f, "-"); }
  }

  /** The names of one character in a directory. */
  lemma OneInside() returns (b: string)
    ensures Split(b, '/') == ["x", "?"] + [] && RelativePattern(b) && CanonicalPattern(b, "") == b
    ensures b[0] == 'x' && b[1..] != "/c"
    ensures forall s :: s != "" ==> (Fnmatch(s, b) <==> HasPrefix(s, "x/") && |s| == 3)
  {
    b := "x/" + "?";
    OneDirectory("?");
    assert ["x", "?"] + [] == ["x", "?"];
    assert b[1..] == "/?" && "/?"[1] != "/c"[1];
    forall s | s != "" ensures Fnmatch(s, b) <==> HasPrefix(s, "x/") && |s| == 3 {
      QuestionUnder(s);
    }
  }

  /** With a ".." inside a class a collision is missed: "[x/../y/]/c" and "x/?" both cover "x/c" and
      are said not to overlap. */
  lemma HiddenParentExample(m: Matcher) returns (a: string, b: string, f: string)
    ensures IsCanonical(f) && Matches(a, "", f) && Matches(b, "", f) && !PatternsOverlap(m, a, b, None, "")
  {
    a := HiddenPattern();
    b := OneInside();
    f := OneFile();
    if HasPrefix(a, "x/") { PrefixHead(a, "x/"); }
    HiddenApart(a, b);
    RawMiss(m, a, b, f);
  }
}
