/** The texts of git_hook_install.py, and what its uninstaller leaves of them. */
module HookTexts {
  import opened PyStrings

  const MARKER := "ai-team-sync"
  const MARKER_LINE := "# ai-team-sync hook"
  const WRAPPER_HEAD := "#!/bin/sh\n# " + MARKER + " hook wrapper"

  // ---------------------------------------------------------------- reading text

  /** Text mode reading: every line end becomes "\n". `half`: a "\r" has just been read. */
  function UniversalFrom(raw: string, half: bool): string {
    if raw == "" then "" else ReadChar(raw[0], half, UniversalFrom(raw[1..], raw[0] == '\r'))
  }

  function ReadChar(c: char, half: bool, rest: string): string {
    if c == '\n' && half then rest else if c == '\r' then ['\n'] + rest else [c] + rest
  }

  lemma ReadCharConcat(c: char, half: bool, x: string, y: string)
    ensures ReadChar(c, half, x + y) == ReadChar(c, half, x) + y
  {
  }

  lemma UniversalCons(c: char, s: string, half: bool)
    ensures UniversalFrom([c] + s, half) == ReadChar(c, half, UniversalFrom(s, c == '\r'))
  {
    assert ([c] + s)[1..] == s;
  }

  function Universal(raw: string): string {
    UniversalFrom(raw, false)
  }

  predicate EndsInReturn(t: string) {
    t != "" && t[|t| - 1] == '\r'
  }

  lemma {:induction false} UniversalConcat(a: string, b: string, half: bool)
    ensures UniversalFrom(a + b, half) ==
        UniversalFrom(a, half) + UniversalFrom(b, if a == "" then half else EndsInReturn(a))
  {
    if a == "" {
      assert a + b == b;
    } else {
      var c, rest := a[0], a[1..];
      assert a == [c] + rest && a + b == [c] + (rest + b);
      UniversalCons(c, rest + b, half);
      UniversalCons(c, rest, half);
      UniversalConcat(rest, b, c == '\r');
      var next := if rest == "" then c == '\r' else EndsInReturn(rest);
      assert next == EndsInReturn(a);
      ReadCharConcat(c, half, UniversalFrom(rest, c == '\r'), UniversalFrom(b, next));
    }
  }

  lemma {:induction false} UniversalPlain(s: string)
    requires '\r' !in s
    ensures Universal(s) == s
  {
    if s != "" { UniversalPlain(s[1..]); }
  }

  /** Reading a text and a newline: one more line end, unless the text ends in half of one. */
  lemma UniversalNewline(t: string)
    ensures Universal(t + "\n") == if EndsInReturn(t) then Universal(t) else Universal(t) + "\n"
  {
    UniversalConcat(t, "\n", false);
  }

  predicate At(s: string, sub: string, i: nat) {
    i + |sub| <= |s| && s[i..i + |sub|] == sub
  }

  predicate Contains(s: string, sub: string) {
    exists i: nat | i <= |s| :: At(s, sub, i)
  }

  lemma ContainsWithin(a: string, b: string, c: string, sub: string)
    requires Contains(b, sub)
    ensures Contains(a + b + c, sub)
  {
    var i: nat :| i <= |b| && At(b, sub, i);
    assert (a + b + c)[|a| + i..|a| + i + |sub|] == b[i..i + |sub|];
    assert At(a + b + c, sub, |a| + i);
  }

  /** Characters `str.splitlines` breaks at. */
  predicate IsBreak(c: char) {
    c == '\n' || c == '\r' || c == '\U{0B}' || c == '\U{0C}' || '\U{1C}' <= c <= '\U{1E}' || c == '\U{85}'
      || c == '\U{2028}' || c == '\U{2029}'
  }

  /** The lines of a text, one character earlier. */
  function Prepend(c: char, lines: seq<string>): seq<string> {
    if IsBreak(c) || lines == [] then [[c]] + lines else [[c] + lines[0]] + lines[1..]
  }

  /** `s.splitlines(keepends=True)`, for a text read in text mode. */
  function SplitLines(s: string): seq<string> {
    if s == "" then [] else Prepend(s[0], SplitLines(s[1..]))
  }

  function Joined(lines: seq<string>): string {
    if lines == [] then "" else lines[0] + Joined(lines[1..])
  }

  lemma {:induction false} JoinedLines(s: string)
    ensures Joined(SplitLines(s)) == s
  {
    if s != "" {
      JoinedLines(s[1..]);
      var rest := SplitLines(s[1..]);
      var lines := Prepend(s[0], rest);
      if IsBreak(s[0]) || rest == [] {
        assert lines[1..] == rest;
      } else {
        assert lines[1..] == rest[1..];
      }
    }
  }

  lemma PrependConcat(c: char, xs: seq<string>, ys: seq<string>)
    requires IsBreak(c) || xs != []
    ensures Prepend(c, xs + ys) == Prepend(c, xs) + ys
  {
    if !IsBreak(c) { assert (xs + ys)[1..] == xs[1..] + ys; }
  }

  lemma SplitLinesCons(c: char, s: string)
    ensures SplitLines([c] + s) == Prepend(c, SplitLines(s))
  {
    assert ([c] + s)[1..] == s;
  }

  /** A text that ends its last line splits apart from what follows. */
  lemma {:induction false} SplitLinesConcat(a: string, b: string)
    requires a != "" && IsBreak(a[|a| - 1])
    ensures SplitLines(a + b) == SplitLines(a) + SplitLines(b)
  {
    var c, rest := a[0], a[1..];
    assert a == [c] + rest && a + b == [c] + (rest + b);
    SplitLinesCons(c, rest + b);
    SplitLinesCons(c, rest);
    if rest == "" {
      assert rest + b == b;
    } else {
      SplitLinesConcat(rest, b);
      SplitLinesSome(rest);
    }
    PrependConcat(c, SplitLines(rest), SplitLines(b));
  }

  lemma SplitLinesSome(s: string)
    requires s != ""
    ensures SplitLines(s) != []
  {
  }

  lemma PrependOne(c: char, rest: string)
    ensures Prepend(c, []) == [[c]]
    ensures !IsBreak(c) ==> Prepend(c, [rest]) == [[c] + rest]
  {
    assert [[c] + rest] + [rest][1..] == [[c] + rest];
  }

  lemma {:induction false} OneLine(s: string)
    requires s != "" && forall k :: 0 <= k < |s| - 1 ==> !IsBreak(s[k])
    ensures SplitLines(s) == [s]
  {
    assert s == [s[0]] + s[1..];
    SplitLinesCons(s[0], s[1..]);
    PrependOne(s[0], s[1..]);
    if |s| > 1 {
      assert forall k :: 0 <= k < |s[1..]| - 1 ==> s[1..][k] == s[k + 1];
      OneLine(s[1..]);
      assert !IsBreak(s[0]);
    } else {
      assert SplitLines(s[1..]) == [] && s == [s[0]];
    }
  }

  lemma {:induction false} LinesWithin(lines: seq<string>, sub: string)
    requires !Contains(Joined(lines), sub)
    ensures forall k :: 0 <= k < |lines| ==> !Contains(lines[k], sub)
  {
    if lines != [] {
      var first, rest := lines[0], Joined(lines[1..]);
      assert first + rest == "" + first + rest && first + rest == first + rest + "";
      if Contains(first, sub) { ContainsWithin("", first, rest, sub); }
      if Contains(rest, sub) { ContainsWithin(first, rest, "", sub); }
      LinesWithin(lines[1..], sub);
    }
  }

  // ---------------------------------------------------------------- taking the call out again

  predicate IsMarkerLine(line: string) {
    Strip(line) == MARKER_LINE
  }

  /** The specification of the uninstaller's loop: the text it keeps of the lines. */
  function Kept(lines: seq<string>, skip: bool, call: string): string {
    if lines == [] then ""
    else if IsMarkerLine(lines[0]) then Kept(lines[1..], true, call)
    else if skip && Contains(lines[0], call) then Kept(lines[1..], false, call)
    else lines[0] + Kept(lines[1..], false, call)
  }

  method KeepLines(lines: seq<string>, call: string) returns (kept: string)
    ensures kept == Kept(lines, false, call)
  {
    kept := "";
    var skipNext := false;
    assert lines[0..] == lines;
    for i := 0 to |lines|
      invariant kept + Kept(lines[i..], skipNext, call) == Kept(lines, false, call)
    {
      assert lines[i..][0] == lines[i] && lines[i..][1..] == lines[i + 1..];
      if IsMarkerLine(lines[i]) {
        skipNext := true;
      } else if skipNext && Contains(lines[i], call) {
        skipNext := false;
      } else {
        skipNext := false;
        kept := kept + lines[i];
      }
    }
  }

  /** The loop drops line `k`: a marker line, or one right after a marker line that holds the call. */
  predicate Drops(lines: seq<string>, k: nat, call: string)
    requires k < |lines|
  {
    Strip(lines[k]) == "# ai-team-sync hook"
    || (k > 0 && Strip(lines[k - 1]) == "# ai-team-sync hook" && Contains(lines[k], call))
  }

  function Pick(lines: seq<string>, at: seq<nat>): seq<string>
    requires forall i :: 0 <= i < |at| ==> at[i] < |lines|
  {
    seq(|at|, i requires 0 <= i < |at| => lines[at[i]])
  }

  /** Whether a marker line has just been read. */
  predicate Skipping(lines: seq<string>, skip: bool) {
    if lines == [] then skip else IsMarkerLine(lines[|lines| - 1])
  }

  function KeptHead(line: string, skip: bool, call: string): string {
    if IsMarkerLine(line) || (skip && Contains(line, call)) then "" else line
  }

  lemma KeptStepOf(lines: seq<string>, first: string, rest: seq<string>, skip: bool, call: string)
    requires lines != [] && lines[0] == first && lines[1..] == rest
    ensures Kept(lines, skip, call) == KeptHead(first, skip, call) + Kept(rest, IsMarkerLine(first), call)
  {
    if IsMarkerLine(first) {
      assert "" + Kept(rest, true, call) == Kept(rest, true, call);
    } else if skip && Contains(first, call) {
      assert "" + Kept(rest, false, call) == Kept(rest, false, call);
    } else {
    }
  }

  lemma KeptStep(first: string, rest: seq<string>, skip: bool, call: string)
    ensures Kept([first] + rest, skip, call) == KeptHead(first, skip, call) + Kept(rest, IsMarkerLine(first), call)
  {
    KeptStepOf([first] + rest, first, rest, skip, call);
  }

  lemma Regroup3(a: string, b: string, c: string)
    ensures a + (b + c) == (a + b) + c
  {
  }

  lemma {:induction false} KeptSnoc(lines: seq<string>, x: string, skip: bool, call: string)
    ensures Kept(lines + [x], skip, call) == Kept(lines, skip, call) + KeptHead(x, Skipping(lines, skip), call)
  {
    if lines == [] {
      assert lines + [x] == [x] + [];
      KeptStep(x, [], skip, call);
    } else {
      var first, rest := lines[0], lines[1..];
      var marker := IsMarkerLine(first);
      assert lines == [first] + rest && lines + [x] == [first] + (rest + [x]);
      KeptSnoc(rest, x, marker, call);
      KeptStep(first, rest, skip, call);
      KeptStep(first, rest + [x], skip, call);
      Regroup3(KeptHead(first, skip, call), Kept(rest, marker, call), KeptHead(x, Skipping(lines, skip), call));
    }
  }

  lemma {:induction false} JoinedSnoc(lines: seq<string>, x: string)
    ensures Joined(lines + [x]) == Joined(lines) + x
  {
    if lines == [] {
      assert Joined([x][1..]) == "";
    } else {
      assert (lines + [x])[1..] == lines[1..] + [x];
      JoinedSnoc(lines[1..], x);
    }
  }

  lemma DropsLast(before: seq<string>, x: string, call: string)
    ensures KeptHead(x, Skipping(before, false), call) == if Drops(before + [x], |before|, call) then "" else x
    ensures forall k :: 0 <= k < |before| ==> (Drops(before + [x], k, call) <==> Drops(before, k, call))
  {
  }

  lemma PickLast(before: seq<string>, x: string, at: seq<nat>)
    requires forall i :: 0 <= i < |at| ==> at[i] < |before|
    ensures Pick(before + [x], at) == Pick(before, at)
    ensures Pick(before + [x], at + [|before|]) == Pick(before, at) + [x]
  {
  }

  /** `at` lists, in order, the lines the loop does not drop. */
  predicate KeepsAt(lines: seq<string>, at: seq<nat>, call: string) {
    && (forall i :: 0 <= i < |at| ==> at[i] < |lines|)
    && (forall i, j :: 0 <= i < j < |at| ==> at[i] < at[j])
    && (forall k :: 0 <= k < |lines| ==> (k in at <==> !Drops(lines, k, call)))
  }

  lemma KeepsOn(before: seq<string>, x: string, at: seq<nat>, call: string)
    requires KeepsAt(before, at, call)
    ensures KeepsAt(before + [x], if Drops(before + [x], |before|, call) then at else at + [|before|], call)
  {
    DropsLast(before, x, call);
    var n := |before|;
    assert n !in at;
    assert forall k :: k in at + [n] <==> k in at || k == n;
  }

  /** Exactly the other lines are kept, whole and in order. */
  lemma {:induction false} KeptIsExact(lines: seq<string>, call: string) returns (at: seq<nat>)
    ensures KeepsAt(lines, at, call) && Kept(lines, false, call) == Joined(Pick(lines, at))
  {
    if lines == [] {
      at := [];
    } else {
      var before, x := lines[..|lines| - 1], lines[|lines| - 1];
      assert lines == before + [x];
      var least := KeptIsExact(before, call);
      KeptSnoc(before, x, false, call);
      DropsLast(before, x, call);
      KeepsOn(before, x, least, call);
      PickLast(before, x, least);
      JoinedSnoc(Pick(before, least), x);
      at := if Drops(lines, |before|, call) then least else least + [|before|];
    }
  }

  /** What the uninstaller writes back of a hook the call was appended to. */
  function Unappended(text: string, call: string): string {
    RStripChar(Kept(SplitLines(text), false, call), '\n') + "\n"
  }

  lemma {:induction false} RStripWithin(s: string)
    ensures |RStrip(s)| <= |s| && s[..|RStrip(s)|] == RStrip(s)
  {
    if s != "" && IsSpace(s[|s| - 1]) {
      RStripWithin(s[..|s| - 1]);
      assert s[..|RStrip(s)|] == s[..|s| - 1][..|RStrip(s)|];
    }
  }

  lemma {:induction false} LStripWithin(s: string)
    ensures |LStrip(s)| <= |s| && s[|s| - |LStrip(s)|..] == LStrip(s)
  {
    if s != "" && IsSpace(s[0]) { LStripWithin(s[1..]); }
  }

  lemma MarkerLineHasMarker(line: string)
    requires IsMarkerLine(line)
    ensures Contains(line, MARKER)
  {
    var l, r := LStrip(line), Strip(line);
    LStripWithin(line);
    RStripWithin(l);
    assert r[2..14] == MARKER;
    var i := |line| - |l|;
    assert line[i + 2..i + 14] == l[2..14] == r[2..14];
    assert At(line, MARKER, i + 2);
  }

  lemma NotMarkerLine(line: string)
    requires line != "" && !IsSpace(line[0]) && line[0] != '#'
    ensures !IsMarkerLine(line)
  {
    RStripWithin(line);
    var r := Strip(line);
    assert r != "" ==> r[0] == line[..|r|][0];
  }

  /** Lines without the marker are all kept. */
  lemma {:induction false} PlainLinesKept(lines: seq<string>, rest: seq<string>, call: string)
    requires forall k :: 0 <= k < |lines| ==> !Contains(lines[k], MARKER)
    ensures Kept(lines + rest, false, call) == Joined(lines) + Kept(rest, false, call)
  {
    if lines == [] {
      assert lines + rest == rest;
    } else {
      if IsMarkerLine(lines[0]) { MarkerLineHasMarker(lines[0]); }
      assert (lines + rest)[1..] == lines[1..] + rest;
      PlainLinesKept(lines[1..], rest, call);
    }
  }

  lemma MarkerLineStrips(s: string)
    requires s == MARKER_LINE + "\n"
    ensures Strip(s) == MARKER_LINE
  {
    assert LStrip(s) == s;
    assert s[..|s| - 1] == MARKER_LINE;
    assert RStrip(s) == RStrip(MARKER_LINE) == MARKER_LINE;
  }

  lemma MarkerLineChars(s: string)
    requires s == MARKER_LINE + "\n"
    ensures forall k :: 0 <= k < |s| - 1 ==> !IsBreak(s[k])
    ensures '\r' !in s
  {
  }

  lemma MarkerLineIsOne()
    ensures IsMarkerLine(MARKER_LINE + "\n")
    ensures SplitLines(MARKER_LINE + "\n") == [MARKER_LINE + "\n"]
    ensures Universal(MARKER_LINE + "\n") == MARKER_LINE + "\n"
    ensures Contains(MARKER_LINE + "\n", MARKER)
  {
    var s := MARKER_LINE + "\n";
    MarkerLineStrips(s);
    MarkerLineChars(s);
    OneLine(s);
    UniversalPlain(s);
    assert s[2..14] == MARKER;
    assert At(s, MARKER, 2);
  }

  /** What is appended to a post hook: a marker line and the call. */
  function Appended(call: string): string {
    "\n" + MARKER_LINE + "\n" + call
  }

  lemma Regroup(t: string, a: string, b: string, c: string, d: string)
    ensures t + (a + b + c + d) == t + a + (b + c + d)
  {
  }

  /** An appended hook, as it is read back. */
  lemma ReadAppended(t: string, call: string)
    ensures Universal(t + Appended(call)) == Universal(t + "\n") + (MARKER_LINE + "\n") + Universal(call)
  {
    var head, mark := t + "\n", MARKER_LINE + "\n";
    MarkerLineIsOne();
    Regroup(t, "\n", MARKER_LINE, "\n", call);
    UniversalConcat(head, mark + call, false);
    UniversalConcat(mark, call, false);
  }

  predicate OnlyNewlines(s: string) {
    forall k :: 0 <= k < |s| ==> s[k] == '\n'
  }

  lemma {:induction false} RStripNewlines(a: string, b: string)
    ensures RStripChar(a + b, '\n') == RStripChar(a, '\n') <==> OnlyNewlines(b)
    decreases |b|
  {
    if b == "" {
      assert a + b == a;
    } else if b[|b| - 1] == '\n' {
      assert (a + b)[..|a + b| - 1] == a + b[..|b| - 1];
      RStripNewlines(a, b[..|b| - 1]);
    } else {
      assert RStripChar(a + b, '\n') == a + b;
      assert b[|b| - 1] != '\n';
    }
  }

  /** What taking the call out leaves of the call itself. */
  function Residue(call: string, name: string): string {
    Kept(SplitLines(Universal(call)), true, name)
  }

  lemma NewlineInjective(x: string, y: string)
    ensures x + "\n" == y + "\n" <==> x == y
  {
    assert x == (x + "\n")[..|x|] && y == (y + "\n")[..|y|];
  }

  /** Appending the call to a hook without the marker and taking it out again gives the hook's own
      text, as read, with its trailing newlines made one -- exactly when nothing but newlines is left
      of the call. */
  lemma AppendRoundTrip(t: string, call: string, name: string)
    requires !Contains(Universal(t), MARKER)
    ensures Unappended(Universal(t + Appended(call)), name) == RStripChar(Universal(t), '\n') + "\n"
            <==> OnlyNewlines(Residue(call, name))
  {
    var a, mark, c := Universal(t + "\n"), MARKER_LINE + "\n", Universal(call);
    ReadAppended(t, call);
    PlainRead(t);
    FilterAppended(a, c, name);
    var left := Residue(call, name);
    RStripNewlines(a, left);
    ReadStrips(t);
    NewlineInjective(RStripChar(a + left, '\n'), RStripChar(a, '\n'));
  }

  lemma ReadStrips(t: string)
    ensures RStripChar(Universal(t + "\n"), '\n') == RStripChar(Universal(t), '\n')
  {
    UniversalNewline(t);
    if !EndsInReturn(t) {
      var nl := "\n";
      assert OnlyNewlines(nl);
      RStripNewlines(Universal(t), nl);
    }
  }

  lemma FilterAppended(a: string, c: string, name: string)
    requires a != "" && a[|a| - 1] == '\n' && !Contains(a, MARKER)
    ensures Kept(SplitLines(a + (MARKER_LINE + "\n") + c), false, name) == a + Kept(SplitLines(c), true, name)
  {
    var mark := MARKER_LINE + "\n";
    MarkerLineIsOne();
    assert a + mark + c == a + (mark + c);
    SplitLinesConcat(a, mark + c);
    SplitLinesConcat(mark, c);
    JoinedLines(a);
    LinesWithin(SplitLines(a), MARKER);
    PlainLinesKept(SplitLines(a), SplitLines(mark + c), name);
    assert SplitLines(mark + c)[1..] == SplitLines(c);
  }

  /** A text without the marker, closed by a newline: still without it, and closed. */
  lemma PlainRead(t: string)
    requires !Contains(Universal(t), MARKER)
    ensures var a := Universal(t + "\n"); a != "" && a[|a| - 1] == '\n' && !Contains(a, MARKER)
  {
    var a, u := Universal(t + "\n"), Universal(t);
    UniversalNewline(t);
    if EndsInReturn(t) { ReadEnds(t, false); }
    NoMarkerOn(u);
  }

  lemma NoMarkerOn(u: string)
    requires !Contains(u, MARKER)
    ensures !Contains(u + "\n", MARKER)
  {
    var a := u + "\n";
    forall i: nat | i <= |a| ensures !At(a, MARKER, i) {
      assert i + 12 <= |u| ==> a[i..i + 12] == u[i..i + 12];
      assert i + 12 <= |a| ==> a[i..i + 12][11] == a[i + 11];
      assert MARKER[11] == 'c' && a[|u|] == '\n';
      assert i <= |u| ==> !At(u, MARKER, i);
    }
  }

  lemma {:induction false} ReadEnds(t: string, half: bool)
    requires EndsInReturn(t)
    ensures var u := UniversalFrom(t, half); u != "" && u[|u| - 1] == '\n'
  {
    if |t| > 1 { ReadEnds(t[1..], t[0] == '\r'); }
  }

  /** A directory whose path has no line break leaves nothing of the call. */
  lemma PlainCallVanishes(call: string, name: string)
    requires call != "" && call[|call| - 1] == '\n' && Contains(call, name)
    requires forall k :: 0 <= k < |call| - 1 ==> !IsBreak(call[k])
    requires !IsMarkerLine(call)
    ensures Residue(call, name) == ""
  {
    assert '\r' !in call by {
      assert forall k :: 0 <= k < |call| ==> call[k] != '\r';
    }
    UniversalPlain(call);
    OneLine(call);
    assert Kept([call], true, name) == Kept([call][1..], false, name);
  }

  /** A call line broken inside its directory's path: its first piece stays. */
  lemma BrokenCallStays(first: string, rest: string, name: string)
    requires first != "" && first[0] == '"' && IsBreak(first[|first| - 1])
    requires '\r' !in first && !Contains(first, name)
    requires forall k :: 0 <= k < |first| - 1 ==> !IsBreak(first[k])
    ensures !OnlyNewlines(Residue(first + rest, name))
  {
    var c := UniversalFrom(rest, false);
    UniversalConcat(first, rest, false);
    UniversalPlain(first);
    OneLine(first);
    SplitLinesConcat(first, c);
    NotMarkerLine(first);
    var lines := [first] + SplitLines(c);
    assert lines[0] == first && lines[1..] == SplitLines(c);
    assert Residue(first + rest, name)[0] == first[0];
  }
}
