// When the real readers' answer on an indexed repository depends on the order of the two patterns.
module ReaderOrders {
  import opened Wrappers
  import opened PyStrings
  import opened Globs
  import opened PosixPaths
  import opened ScopePaths
  import opened LockReaders
  import opened FileIndexes
  import opened UnlistedOverlaps

  predicate PlainName(s: string) {
    IsCanonical(s) && Strip(s) == s
  }

  /** A glob for one canonical path: "]" is no character of such a path. */
  function Only(n: string): string
    requires n != ""
  {
    ['[', ']', n[0], ']'] + n[1..]
  }

  lemma OnlyToken(c: char)
    ensures ClassOf([']', c]) == Class(false, [One(']'), One(c)])
  {
    var body := [']', c];
    assert body[1..] == [c] && [c][1..] == "";
    assert Items([c]) == [One(c)] + Items("");
    assert Items(body) == [One(']')] + Items([c]);
  }

  lemma OnlyTokens(n: string)
    requires n != "" && n[0] != ']'
    ensures Tokens(Only(n)) == [Class(false, [One(']'), One(n[0])])] + Tokens(n[1..])
  {
    var p := Only(n);
    assert p[0] == '[' && p[1] == ']' && p[2] == n[0] && p[3] == ']';
    assert FindChar(p, ']', 3) == 3 && FindChar(p, ']', 2) == 3;
    assert CloseAt(p, 1) == 3;
    assert p[1..3] == [']', n[0]] && p[4..] == n[1..];
    OnlyToken(n[0]);
  }

  lemma ClassAccepts(c: char, d: char)
    ensures Accepts(Class(false, [One(']'), One(c)]), d) <==> d == ']' || d == c
  {
    var items := [One(']'), One(c)];
    assert items[0] in items && items[1] in items;
  }

  lemma OnlyMatches(n: string, s: string)
    requires n != "" && IsLiteral(n)
    ensures Fnmatch(s, Only(n)) <==> s != "" && (s[0] == ']' || s[0] == n[0]) && s[1..] == n[1..]
  {
    assert !IsMeta(n[0]) && forall k :: 0 <= k < |n| - 1 ==> n[1..][k] == n[k + 1];
    OnlyTokens(n);
    assert Tokens(Only(n))[1..] == Tokens(n[1..]);
    if s != "" {
      ClassAccepts(n[0], s[0]);
      LiteralMatchesItself(n[1..], s[1..]);
    }
  }

  /** Text without "/" in front of a path joins its first component. */
  lemma {:induction false} SplitText(t: string, s: string, head: string, rest: seq<string>)
    requires '/' !in t && Split(s, '/') == [head] + rest
    ensures Split(t + s, '/') == [t + head] + rest
  {
    if t == "" {
      assert t + s == s && t + head == head;
    } else {
      SplitText(t[1..], s, head, rest);
      SplitOneMore(t[0], t[1..] + s, t[1..] + head, rest);
      assert [t[0]] + (t[1..] + s) == t + s && [t[0]] + (t[1..] + head) == t + head;
    }
  }

  lemma SplitOneMore(c: char, s: string, head: string, rest: seq<string>)
    requires c != '/' && Split(s, '/') == [head] + rest
    ensures Split([c] + s, '/') == [[c] + head] + rest
  {
    SplitCons(c, s, '/');
    assert ([head] + rest)[1..] == rest;
  }

  lemma OnlyParts(n: string)
    requires PlainName(n) && n != "" && n[0] != '/'
    ensures forall part :: part in Split(Only(n), '/') ==> PlainPart(part)
  {
    var rest := Split(n[1..], '/');
    assert n == [n[0]] + n[1..];
    SplitCons(n[0], n[1..], '/');
    assert rest == [rest[0]] + rest[1..];
    SplitText(['[', ']', n[0], ']'], n[1..], rest[0], rest[1..]);
    SplitFree(Only(n), '/');
    forall part | part in Split(Only(n), '/') ensures PlainPart(part) {
      if part in rest[1..] {
        assert part in Split(n, '/');
      } else {
        assert part == ['[', ']', n[0], ']'] + rest[0];
      }
    }
  }

  lemma StripShrinks(s: string)
    ensures |LStrip(s)| <= |s| && |RStrip(s)| <= |s|
    ensures s != "" && IsSpace(s[|s| - 1]) ==> |RStrip(s)| < |s|
  {
    if s != "" {
      StripShrinks(s[1..]);
      StripShrinks(s[..|s| - 1]);
    }
  }

  lemma OnlyStrips(n: string)
    requires n != "" && Strip(n) == n
    ensures Strip(Only(n)) == Only(n)
  {
    StripShrinks(n);
    StripShrinks(LStrip(n));
    var p := Only(n);
    assert |n| > 1 ==> p[|p| - 1] == n[|n| - 1];
    StripEnds(p);
  }

  lemma PlainIsCanonical(p: string, root: string)
    requires forall part :: part in Split(p, '/') ==> PlainPart(part)
    requires Strip(p) == p && p != "." && !IsLiteral(p)
    ensures p != "" && !HasPrefix(p, "/") && ".." !in Split(p, '/')
    ensures CanonicalPattern(p, root) == p && LiteralTarget(p, root) == ""
  {
    var parts := Split(p, '/');
    assert forall k :: 0 <= k < |parts| ==> parts[k] in parts;
    NormpathPlain(p);
  }

  lemma PlainIsLexical(p: string)
    requires forall part :: part in Split(p, '/') ==> PlainPart(part)
    requires !HasPrefix(p, "/")
    ensures LexicalPattern(p) == p
  {
    KeptPartsAll(Split(p, '/'));
    JoinSplit(p, '/');
    PlainIsNoDirectory(p);
    assert "" + p == p;
  }

  lemma NoStarEnd(p: string)
    requires p != "" && p[|p| - 1] != '*'
    ensures !HasSuffix(p, "/**") && !HasSuffix(p, "/*")
  {
    assert |p| >= 3 ==> p[|p| - 3..][2] == p[|p| - 1];
    assert |p| >= 2 ==> p[|p| - 2..][1] == p[|p| - 1];
  }

  lemma PlainIsText(p: string, root: string)
    requires forall part :: part in Split(p, '/') ==> PlainPart(part)
    requires p != "" && Strip(p) == p && NUL !in p && p[|p| - 1] != '*' && p != "." && !IsLiteral(p)
    ensures TextPattern(p) && LiteralTarget(p, root) == ""
  {
    PlainIsCanonical(p, root);
    PlainIsCanonical(p, "");
    PlainIsLexical(p);
    NoStarEnd(p);
  }

  lemma OnlyChars(n: string)
    requires n != "" && NUL !in n && n[|n| - 1] != '*'
    ensures var p := Only(n); p != "" && NUL !in p && p[|p| - 1] != '*' && p != "." && !IsLiteral(p) && p[0] == '['
  {
    var p := Only(n);
    assert p[3] == ']' && forall k :: 4 <= k < |p| ==> p[k] == n[k - 3];
    assert IsMeta(p[0]);
  }

  /** Such a glob is read as text by both readers, and names no file to create. */
  lemma OnlyIsText(n: string, root: string)
    requires PlainName(n)
    ensures n != "" && IsLiteral(n) && TextPattern(Only(n)) && LiteralTarget(Only(n), root) == ""
  {
    CanonicalIsPlain(n);
    CanonicalParts(n);
    assert !IsMeta(n[|n| - 1]);
    OnlyParts(n);
    OnlyStrips(n);
    OnlyChars(n);
    PlainIsText(Only(n), root);
  }

  lemma OnlyIsOne(n: string, s: string)
    requires n != "" && IsLiteral(n) && s != "" && s[0] != ']'
    ensures Fnmatch(s, Only(n)) <==> s == n
  {
    OnlyMatches(n, s);
    assert s == [s[0]] + s[1..] && n == [n[0]] + n[1..];
  }

  lemma OnlyReads(n: string, s: string, root: string)
    requires PlainName(n) && PlainName(s) && n != "" && Placeable(root)
    ensures Readers(root)(Only(n), s) <==> s == n
  {
    OnlyIsText(n, root);
    CanonicalIsPlain(s);
    ReadersAreFnmatch(Only(n), s, root);
    assert s[0] != ']' by { assert !IsMeta(s[0]); }
    OnlyIsOne(n, s);
  }

  lemma OnlyApart(n: string, x: string)
    requires n != "" && x != "" && IsLiteral(n) && IsLiteral(x) && n != x
    ensures Only(n) != Only(x) && !Fnmatch(Only(n), Only(x))
  {
    var a, b := Only(n), Only(x);
    assert a[0] == '[' && !IsMeta(x[0]);
    OnlyMatches(x, a);
    assert a[2] == n[0] && b[2] == x[0] && a[4..] == n[1..] && b[4..] == x[1..];
    assert n == [n[0]] + n[1..] && x == [x[0]] + x[1..];
  }

  /** Every name the index knows is a canonical path. */
  ghost predicate CanonicalNames(index: FileIndex) {
    forall n, x :: Shares(index, n, x) ==> PlainName(n) && PlainName(x)
  }

  /** `patterns_overlap` on an index, with the readers it uses. */
  predicate OverlapBy(index: FileIndex, root: string, a: string, b: string) {
    PatternsOverlap(Readers(root), a, b, Some(index), root)
  }

  lemma ReadersOrderMatters(index: FileIndex, root: string) returns (a: string, b: string)
    requires CanonicalNames(index) && !Reversible(index) && Placeable(root)
    ensures OverlapBy(index, root, a, b) && !OverlapBy(index, root, b, a)
  {
    var n, x :| Shares(index, n, x) && !Shares(index, x, n);
    OnlyIsText(n, root);
    OnlyIsText(x, root);
    a, b := Only(n), Only(x);
    OnlyApart(n, x);
    OnlyApart(x, n);
    OnlyReads(n, n, root);
    OnlyReads(x, x, root);
    forall y, z | Shares(index, y, z) && Readers(root)(b, y) && Readers(root)(a, z) ensures y == x && z == n {
      OnlyReads(x, y, root);
      OnlyReads(n, z, root);
    }
    OneWay(Readers(root), a, b, index, root, n, x);
  }

  /** On an index of canonical names the readers' own answer is independent of the order of the
      patterns, for every two of them, exactly when names lead both ways. */
  lemma ReadersOrderExact(index: FileIndex, root: string)
    requires CanonicalNames(index) && Placeable(root)
    ensures Reversible(index) <==>
            forall a, b :: OverlapBy(index, root, a, b) == OverlapBy(index, root, b, a)
  {
    if Reversible(index) {
      forall a, b ensures OverlapBy(index, root, a, b) == OverlapBy(index, root, b, a) {
        IndexedOverlapSymmetric(Readers(root), a, b, index, root);
      }
    } else {
      var a, b := ReadersOrderMatters(index, root);
      assert OverlapBy(index, root, a, b) != OverlapBy(index, root, b, a);
    }
  }
}
