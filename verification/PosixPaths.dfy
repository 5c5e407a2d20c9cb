/** `posixpath.normpath` and `posixpath.dirname`, and the lexical forms built on them. */
module PosixPaths {
  import opened PyStrings

  /** The component stack `normpath` builds: "" and "." are dropped, ".." pops. */
  function NormComps(comps: seq<string>, acc: seq<string>, rooted: bool): seq<string>
    decreases |comps|
  {
    if comps == [] then acc
    else if comps[0] == "" || comps[0] == "." then NormComps(comps[1..], acc, rooted)
    else if comps[0] != ".." || (!rooted && acc == []) || (acc != [] && acc[|acc| - 1] == "..") then
      NormComps(comps[1..], acc + [comps[0]], rooted)
    else if acc != [] then NormComps(comps[1..], acc[..|acc| - 1], rooted)
    else NormComps(comps[1..], acc, rooted)
  }

  /** Exactly two leading slashes are kept, any other number becomes one. */
  function InitialSlashes(path: string): string {
    if !HasPrefix(path, "/") then ""
    else if HasPrefix(path, "//") && !HasPrefix(path, "///") then "//"
    else "/"
  }

  function Normpath(path: string): string {
    if path == "" then "."
    else
      var lead := InitialSlashes(path);
      var normal := lead + Join(NormComps(Split(path, '/'), [], lead != ""), '/');
      if normal == "" then "." else normal
  }

  /** "/" + posixpath.normpath(s).lstrip("/") */
  function AbsoluteForm(s: string): (r: string)
    ensures HasPrefix(r, "/") && !HasPrefix(r, "//")
  {
    "/" + LStripChar(Normpath(s), '/')
  }

  /** `posixpath.dirname` */
  function Dirname(p: string): string {
    var head := p[..LastSlash(p)];
    if head != "" && (exists k :: 0 <= k < |head| && head[k] != '/') then RStripChar(head, '/') else head
  }

  /** One past the last "/", 0 when there is none. */
  function LastSlash(p: string): (i: nat)
    ensures i <= |p|
    ensures i > 0 ==> p[i - 1] == '/'
    ensures '/' !in p[i..]
  {
    if p == "" then 0
    else if p[|p| - 1] == '/' then |p|
    else
      var i := LastSlash(p[..|p| - 1]);
      assert p[i..] == p[..|p| - 1][i..] + [p[|p| - 1]];
      i
  }

  /** A component that survives normalisation where it stands. */
  predicate PlainPart(part: string) {
    part != "" && part != "." && part != ".." && '/' !in part
  }

  lemma {:induction false} NormCompsPlain(comps: seq<string>, acc: seq<string>, rooted: bool)
    requires forall k :: 0 <= k < |comps| ==> PlainPart(comps[k])
    ensures NormComps(comps, acc, rooted) == acc + comps
    decreases |comps|
  {
    if comps == [] {
      assert acc + comps == acc;
    } else {
      assert PlainPart(comps[0]);
      NormCompsPlain(comps[1..], acc + [comps[0]], rooted);
      assert acc + [comps[0]] + comps[1..] == acc + comps;
    }
  }

  lemma {:induction false} NormCompsConcat(a: seq<string>, b: seq<string>, acc: seq<string>, rooted: bool)
    ensures NormComps(a + b, acc, rooted) == NormComps(b, NormComps(a, acc, rooted), rooted)
    decreases |a|
  {
    if a == [] {
      assert a + b == b;
    } else {
      assert (a + b)[1..] == a[1..] + b && (a + b)[0] == a[0];
      var next := NormComps([a[0]], acc, rooted);
      NormCompsStep(a[0], a[1..] + b, acc, rooted);
      NormCompsStep(a[0], a[1..], acc, rooted);
      assert [a[0]] + (a[1..] + b) == a + b && [a[0]] + a[1..] == a;
      NormCompsConcat(a[1..], b, next, rooted);
    }
  }

  lemma NormCompsStep(c: string, rest: seq<string>, acc: seq<string>, rooted: bool)
    ensures NormComps([c] + rest, acc, rooted) == NormComps(rest, NormComps([c], acc, rooted), rooted)
  {
    assert ([c] + rest)[1..] == rest && [c][1..] == [];
  }

  lemma Skips(c: string, b: seq<string>, acc: seq<string>, rooted: bool)
    requires c == "" || c == "." || (c == ".." && rooted && acc == [])
    ensures NormComps([c] + b, acc, rooted) == NormComps(b, acc, rooted)
  {
    assert ([c] + b)[1..] == b;
  }

  lemma Cancels(name: string, b: seq<string>, acc: seq<string>, rooted: bool)
    requires PlainPart(name)
    ensures NormComps([name] + ([".."] + b), acc, rooted) == NormComps(b, acc, rooted)
  {
    var on := acc + [name];
    assert ([name] + ([".."] + b))[1..] == [".."] + b;
    assert NormComps([name] + ([".."] + b), acc, rooted) == NormComps([".."] + b, on, rooted);
    assert on[..|on| - 1] == acc && ([".."] + b)[1..] == b;
  }

  /** "" and "." stand for nothing, ".." takes back the name before it, and at the root itself goes nowhere. */
  lemma NormCompsLaws(a: seq<string>, name: string, b: seq<string>, rooted: bool)
    requires PlainPart(name)
    ensures NormComps(a + ([""] + b), [], rooted) == NormComps(a + b, [], rooted)
    ensures NormComps(a + (["."] + b), [], rooted) == NormComps(a + b, [], rooted)
    ensures NormComps(a + ([name] + ([".."] + b)), [], rooted) == NormComps(a + b, [], rooted)
    ensures NormComps([".."] + b, [], true) == NormComps(b, [], true)
  {
    var acc := NormComps(a, [], rooted);
    NormCompsConcat(a, b, [], rooted);
    NormCompsConcat(a, [""] + b, [], rooted);
    NormCompsConcat(a, ["."] + b, [], rooted);
    NormCompsConcat(a, [name] + ([".."] + b), [], rooted);
    Skips("", b, acc, rooted);
    Skips(".", b, acc, rooted);
    Cancels(name, b, acc, rooted);
    Skips("..", b, [], true);
  }

  /** A relative path of plain components is its own normal form. */
  lemma NormpathPlain(path: string)
    requires forall k :: 0 <= k < |Split(path, '/')| ==> PlainPart(Split(path, '/')[k])
    ensures path != "" && !HasPrefix(path, "/") && Normpath(path) == path
  {
    var parts := Split(path, '/');
    assert PlainPart(parts[0]);
    NormCompsPlain(parts, [], false);
    assert [] + parts == parts;
    JoinSplit(path, '/');
    assert "" + path == path;
  }
}
