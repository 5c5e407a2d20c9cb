/** Python's `fnmatch.fnmatch` on POSIX: `*` and `?` cross "/", and `[...]` is a character class.
    The class syntax is that of `fnmatch.translate` (Python 3.11 and later). */
module Globs {
  import opened PyStrings

  datatype Item = One(c: char) | Range(lo: char, hi: char)

  datatype Token = Star | AnyChar | Lit(c: char) | Class(negated: bool, items: seq<Item>)

  predicate InItem(i: Item, c: char) {
    match i
    case One(d) => c == d
    case Range(lo, hi) => lo <= c <= hi
  }

  /** Whether a token other than `*` accepts the character `c`. */
  predicate Accepts(t: Token, c: char)
    requires !t.Star?
  {
    match t
    case AnyChar => true
    case Lit(d) => c == d
    case Class(negated, items) => (exists i :: i in items && InItem(i, c)) != negated
  }

  /** Where the class opened just before `i` closes: a "]" right after "[" or "[!" is a member.
      |p| when it never closes, and then the "[" is an ordinary character. */
  function CloseAt(p: string, i: nat): (j: nat)
    requires i <= |p|
    ensures i <= j <= |p|
  {
    var a := if i < |p| && p[i] == '!' then i + 1 else i;
    var b := if a < |p| && p[a] == ']' then a + 1 else a;
    FindChar(p, ']', b)
  }

  /** The members of a class body, left to right; an empty range is dropped. */
  function Items(body: string): seq<Item> {
    if body == "" then []
    else if |body| >= 3 && body[1] == '-' then
      (if body[0] <= body[2] then [Range(body[0], body[2])] else []) + Items(body[3..])
    else [One(body[0])] + Items(body[1..])
  }

  /** `translate` decides negation on what is left AFTER empty ranges are dropped. */
  function ClassOf(body: string): Token {
    var items := if body != "" && body[0] == '!' then [One('!')] + Items(body[1..]) else Items(body);
    if items == [] then Class(false, [])
    else
      match items[0]
      case One(c) => if c == '!' then Class(true, items[1..]) else Class(false, items)
      case Range(lo, hi) =>
        if lo == '!' then Class(true, [One('-'), One(hi)] + items[1..]) else Class(false, items)
  }

  /** Whether a class opens a pattern; a "[" that is never closed is an ordinary character. */
  predicate OpensClass(p: string) {
    p != "" && p[0] == '[' && CloseAt(p, 1) < |p|
  }

  /** How much of a pattern its first token takes. */
  function TokenWidth(p: string): (w: nat)
    requires p != ""
    ensures 1 <= w <= |p|
  {
    if OpensClass(p) then CloseAt(p, 1) + 1 else 1
  }

  function TokenAt(p: string): Token
    requires p != ""
  {
    if p[0] == '*' then Star
    else if p[0] == '?' then AnyChar
    else if OpensClass(p) then ClassOf(p[1..CloseAt(p, 1)])
    else Lit(p[0])
  }

  /** `fnmatch.translate`, as a list of tokens. */
  function Tokens(p: string): seq<Token> {
    if p == "" then [] else [TokenAt(p)] + Tokens(p[TokenWidth(p)..])
  }

  /** A token of the pattern begins at `k`: no class is open there. */
  predicate AtToken(p: string, k: nat) {
    k == 0 || (k <= |p| && TokenWidth(p) <= k && AtToken(p[TokenWidth(p)..], k - TokenWidth(p)))
  }

  predicate Match(s: string, toks: seq<Token>)
    decreases |s| + |toks|
  {
    if toks == [] then s == ""
    else if toks[0].Star? then Match(s, toks[1..]) || (s != "" && Match(s[1..], toks))
    else s != "" && Accepts(toks[0], s[0]) && Match(s[1..], toks[1..])
  }

  /** `fnmatch.fnmatch(s, p)` */
  predicate Fnmatch(s: string, p: string) {
    Match(s, Tokens(p))
  }

  predicate IsMeta(c: char) {
    c in "*?[]"
  }

  /** GLOB_META & set(s) is empty */
  predicate IsLiteral(s: string) {
    forall k :: 0 <= k < |s| ==> !IsMeta(s[k])
  }

  /** `_fnmatch_literal` */
  function EscapeLiteral(text: string): string {
    if text == "" then ""
    else (if IsMeta(text[0]) then ['[', text[0], ']'] else [text[0]]) + EscapeLiteral(text[1..])
  }

  /** The token an escaped character becomes. */
  function EscapedToken(c: char): Token {
    if IsMeta(c) then Class(false, [One(c)]) else Lit(c)
  }

  lemma TokensOfEscapedChar(c: char, rest: string)
    ensures Tokens(EscapeLiteral([c]) + rest) == [EscapedToken(c)] + Tokens(rest)
  {
    assert EscapeLiteral([c]) == if IsMeta(c) then ['[', c, ']'] else [c];
    var p := EscapeLiteral([c]) + rest;
    if IsMeta(c) {
      assert p[0] == '[' && p[1] == c && p[2] == ']';
      assert CloseAt(p, 1) == 2;
      assert p[1..2] == [c] && p[3..] == rest;
      assert Items([c]) == [One(c)] + Items([c][1..]);
      assert ClassOf([c]) == Class(false, [One(c)]);
    } else {
      assert p[1..] == rest;
    }
  }

  /** One step of `EscapeLiteral`, on an explicit first character. */
  lemma EscapeCons(c: char, t: string)
    ensures EscapeLiteral([c] + t) == EscapeLiteral([c]) + EscapeLiteral(t)
  {
    assert ([c] + t)[1..] == t && [c][1..] == "";
  }

  lemma EscapedTokenAccepts(c: char, d: char)
    ensures Accepts(EscapedToken(c), d) <==> c == d
  {
    assert One(c) in [One(c)];
  }

  /** One step of `Match` when the first token is an escaped character. */
  lemma MatchEscaped(c: char, toks: seq<Token>, s: string)
    ensures Match(s, [EscapedToken(c)] + toks) <==> s != "" && s[0] == c && Match(s[1..], toks)
  {
    assert ([EscapedToken(c)] + toks)[1..] == toks;
    if s != "" { EscapedTokenAccepts(c, s[0]); }
  }

  lemma HasPrefixCons(s: string, c: char, t: string)
    ensures HasPrefix(s, [c] + t) <==> s != "" && s[0] == c && HasPrefix(s[1..], t)
  {
    if s != "" && |t| < |s| {
      assert s[..|t| + 1] == [s[0]] + s[1..][..|t|];
    }
  }

  /** Faithful escaping: `_fnmatch_literal(t)` in front of a pattern matches exactly `t`. */
  lemma {:induction false} EscapedPrefix(t: string, q: string, s: string)
    ensures Fnmatch(s, EscapeLiteral(t) + q) <==> HasPrefix(s, t) && Fnmatch(s[|t|..], q)
  {
    if t == "" {
      assert EscapeLiteral(t) + q == q && s[0..] == s;
    } else {
      var rest := EscapeLiteral(t[1..]) + q;
      assert t == [t[0]] + t[1..];
      EscapeCons(t[0], t[1..]);
      assert EscapeLiteral(t) + q == EscapeLiteral([t[0]]) + rest;
      TokensOfEscapedChar(t[0], rest);
      MatchEscaped(t[0], Tokens(rest), s);
      HasPrefixCons(s, t[0], t[1..]);
      if s != "" {
        EscapedPrefix(t[1..], q, s[1..]);
        assert |t| <= |s| ==> s[1..][|t| - 1..] == s[|t|..];
      }
    }
  }

  lemma {:induction false} EscapeOfLiteral(t: string)
    requires IsLiteral(t)
    ensures EscapeLiteral(t) == t
  {
    if t != "" {
      assert forall k :: 0 <= k < |t| - 1 ==> t[1..][k] == t[k + 1];
      EscapeOfLiteral(t[1..]);
      assert t == [t[0]] + t[1..];
    }
  }

  /** Glob-free text in front of a pattern matches itself, character for character. */
  lemma LiteralPrefix(t: string, q: string, s: string)
    requires IsLiteral(t)
    ensures Fnmatch(s, t + q) <==> HasPrefix(s, t) && Fnmatch(s[|t|..], q)
  {
    EscapeOfLiteral(t);
    EscapedPrefix(t, q, s);
  }

  /** A glob-free pattern matches exactly itself. */
  lemma LiteralMatchesItself(t: string, s: string)
    requires IsLiteral(t)
    ensures Fnmatch(s, t) <==> s == t
  {
    LiteralPrefix(t, "", s);
    assert t + "" == t;
  }

  /** `*` in front of a pattern matches exactly when the pattern matches some suffix. */
  lemma {:induction false} StarPrefix(q: string, s: string)
    ensures Fnmatch(s, "*" + q) <==> exists k :: 0 <= k <= |s| && Fnmatch(s[k..], q)
  {
    assert ("*" + q)[1..] == q;
    var toks := Tokens("*" + q);
    assert toks[0] == Star && toks[1..] == Tokens(q);
    assert s[0..] == s;
    if s != "" {
      StarPrefix(q, s[1..]);
      forall k | 1 <= k <= |s| ensures s[1..][k - 1..] == s[k..] {
      }
      if exists k :: 0 <= k <= |s[1..]| && Fnmatch(s[1..][k..], q) {
        var k :| 0 <= k <= |s[1..]| && Fnmatch(s[1..][k..], q);
        assert s[1..][k..] == s[k + 1..];
      }
      if exists k :: 1 <= k <= |s| && Fnmatch(s[k..], q) {
        var k :| 1 <= k <= |s| && Fnmatch(s[k..], q);
        assert s[1..][k - 1..] == s[k..];
      }
    }
  }

  /** `*` alone matches everything. */
  lemma StarMatchesAll(s: string)
    ensures Fnmatch(s, "*")
  {
    StarPrefix("", s);
    assert "*" + "" == "*";
    assert s[|s|..] == "";
  }

  // ---------------------------------------------------------------- one character of a pattern

  lemma StepToken(p: string, s: string)
    requires p != "" && !TokenAt(p).Star?
    ensures Fnmatch(s, p) <==> s != "" && Accepts(TokenAt(p), s[0]) && Fnmatch(s[1..], p[TokenWidth(p)..])
  {
    assert Tokens(p)[0] == TokenAt(p) && Tokens(p)[1..] == Tokens(p[TokenWidth(p)..]);
  }

  /** `?` takes any one character, "/" included. */
  lemma AnyPrefix(q: string, s: string)
    ensures Fnmatch(s, "?" + q) <==> s != "" && Fnmatch(s[1..], q)
  {
    var p := "?" + q;
    assert p[0] == '?' && TokenWidth(p) == 1 && p[1..] == q;
    StepToken(p, s);
  }

  /** A "[" that nothing closes means itself. */
  lemma OpenPrefix(q: string, s: string)
    requires ']' !in q
    ensures Fnmatch(s, "[" + q) <==> s != "" && s[0] == '[' && Fnmatch(s[1..], q)
  {
    var p := "[" + q;
    assert p[0] == '[' && p[1..] == q && forall k :: 1 <= k < |p| ==> p[k] == q[k - 1];
    assert !OpensClass(p) && TokenWidth(p) == 1;
    StepToken(p, s);
  }

  lemma {:induction false} ItemsAre(body: string)
    requires '-' !in body
    ensures forall c :: (exists i :: i in Items(body) && InItem(i, c)) <==> c in body
    ensures body != "" ==> Items(body) != [] && Items(body)[0] == One(body[0])
  {
    if body != "" {
      assert |body| >= 3 ==> body[1] in body;
      ItemsAre(body[1..]);
      var items := Items(body);
      assert items == [One(body[0])] + Items(body[1..]);
      forall c ensures (exists i :: i in items && InItem(i, c)) <==> c in body {
        if c in body {
          if c == body[0] {
            assert items[0] in items && InItem(items[0], c);
          } else {
            assert c in body[1..];
            var i :| i in Items(body[1..]) && InItem(i, c);
            assert i in items;
          }
        }
        if i :| i in items && InItem(i, c) {
          assert i == One(body[0]) || i in Items(body[1..]);
          assert c == body[0] || c in body[1..];
        }
      }
    }
  }

  lemma ClosesAt(p: string, body: string, q: string, skip: nat)
    requires p == "[" + body + "]" + q && skip <= 1 && |body| > skip
    requires (skip == 1 <==> body[0] == '!') && ']' !in body
    ensures OpensClass(p) && CloseAt(p, 1) == |body| + 1 && p[1..|body| + 1] == body && p[|body| + 2..] == q
  {
    assert p[0] == '[' && p[|body| + 1] == ']' && forall k :: 0 <= k < |body| ==> p[k + 1] == body[k];
    var b := 1 + skip;
    assert p[b] == body[b - 1];
    var j := FindChar(p, ']', b);
    assert forall k :: 1 <= k <= |body| ==> p[k] in body;
    assert j == |body| + 1;
  }

  /** A class takes one of its members. */
  lemma MembersPrefix(body: string, q: string, s: string)
    requires body != "" && body[0] != '!' && ']' !in body && '-' !in body
    ensures Fnmatch(s, "[" + body + "]" + q) <==> s != "" && s[0] in body && Fnmatch(s[1..], q)
  {
    var p := "[" + body + "]" + q;
    ClosesAt(p, body, q, 0);
    ItemsAre(body);
    assert ClassOf(body) == Class(false, Items(body));
    assert p[0] == '[' && TokenAt(p) == ClassOf(body);
    StepToken(p, s);
  }

  /** A class that begins with "!" takes any character that is no member. */
  lemma OthersPrefix(body: string, q: string, s: string)
    requires body != "" && ']' !in body && '-' !in body
    ensures Fnmatch(s, "[" + ("!" + body) + "]" + q) <==> s != "" && s[0] !in body && Fnmatch(s[1..], q)
  {
    var all := "!" + body;
    var p := "[" + all + "]" + q;
    assert all[0] == '!' && all[1..] == body;
    ClosesAt(p, all, q, 1);
    ItemsAre(body);
    assert ([One('!')] + Items(body))[1..] == Items(body);
    assert ClassOf(all) == Class(true, Items(body));
    assert p[0] == '[' && TokenAt(p) == ClassOf(all);
    StepToken(p, s);
  }

  /** A range takes the characters between its ends, and none when they are the wrong way round: an
      empty class is kept as one that takes nothing. */
  lemma RangePrefix(lo: char, hi: char, q: string, s: string)
    requires lo != '!' && lo != ']' && hi != ']'
    ensures Fnmatch(s, "[" + [lo, '-', hi] + "]" + q) <==> s != "" && lo <= s[0] <= hi && Fnmatch(s[1..], q)
  {
    var body := [lo, '-', hi];
    var p := "[" + body + "]" + q;
    ClosesAt(p, body, q, 0);
    assert body[3..] == "" && Items("") == [];
    assert Items(body) == if lo <= hi then [Range(lo, hi)] else [];
    assert ClassOf(body) == Class(false, Items(body));
    assert p[0] == '[' && TokenAt(p) == ClassOf(body);
    assert lo <= hi ==> Range(lo, hi) in Items(body);
    StepToken(p, s);
  }
}
