/** Installing and uninstalling git hooks, git_hook_install.py, over a directory of files. */
module GitHooks {
  import opened Wrappers
  import opened PyStrings
  import opened HookTexts

  datatype Hook = PreCommit | PreMergeCommit | PrepareCommitMsg | PostCommit | PostCheckout

  predicate IsPost(h: Hook) {
    h.PostCommit? || h.PostCheckout?
  }

  function NameOf(h: Hook): string {
    match h
    case PreCommit => "pre-commit"
    case PreMergeCommit => "pre-merge-commit"
    case PrepareCommitMsg => "prepare-commit-msg"
    case PostCommit => "post-commit"
    case PostCheckout => "post-checkout"
  }

  /** A hook's files: the one git runs, what it was chained from, and the ATS runner. */
  datatype Part = Main | ChainedFrom | Runner

  datatype File = HookFile(hook: Hook, part: Part) | OtherFile(name: string)

  type Files = map<File, string>

  function FileName(h: Hook, part: Part): string {
    NameOf(h) + match part case Main => "" case ChainedFrom => ".ats-chained" case Runner => "-ats"
  }

  // ---------------------------------------------------------------- texts

  /** The directory's path, which texts count as sh or bash scripts, and the texts that are written:
      a wrapper after its head, and a runner for a quoted interpreter. */
  datatype Setup = Setup(dir: string, shell: string -> bool, wrapperTail: Hook -> string,
                         runner: (Hook, string) -> string)

  function WrapperText(setup: Setup, h: Hook): string {
    WRAPPER_HEAD + setup.wrapperTail(h)
  }

  /** The line that calls the runner from a post hook. */
  function CallLine(dir: string, h: Hook): string {
    "\"" + dir + "/" + FileName(h, Runner) + "\" \"$@\"\n"
  }

  predicate Ours(text: string) {
    Contains(text, MARKER)
  }

  predicate IsWrapper(text: string) {
    HasPrefix(text, WRAPPER_HEAD)
  }

  // ---------------------------------------------------------------- one hook's files

  datatype Slot = Slot(main: Option<string>, chained: Option<string>, runner: Option<string>)

  datatype Verdict = Created | Chained | AppendedTo | Unchanged | SkippedScript | SkippedChained

  function Install1(s: Slot, h: Hook, python: string, setup: Setup): (Slot, Verdict) {
    var run := Some(setup.runner(h, python));
    if s.main.None? then (s.(runner := run, main := Some(WrapperText(setup, h))), Created)
    else
      var text := Universal(s.main.value);
      if Ours(text) then (s.(runner := run), Unchanged)
      else if IsPost(h) then
        if !setup.shell(text) then (s, SkippedScript)
        else (s.(runner := run, main := Some(s.main.value + Appended(CallLine(setup.dir, h)))), AppendedTo)
      else if s.chained.Some? then (s, SkippedChained)
      else (Slot(Some(WrapperText(setup, h)), s.main, run), Chained)
  }

  function Uninstall1(s: Slot, h: Hook): Slot {
    var bare := s.(runner := None);
    if s.main.None? then bare
    else
      var text := Universal(s.main.value);
      if IsWrapper(text) then bare.(main := s.chained, chained := None)
      else if Ours(text) then bare.(main := Some(Unappended(text, FileName(h, Runner))))
      else bare
  }

  /** A hook that is there and does not bear the marker. */
  predicate Foreign(s: Slot) {
    s.main.Some? && !Contains(Universal(s.main.value), "ai-team-sync")
  }

  /** What an install by `python` leaves of one hook's files, whatever they were. Another's hook is kept:
      a post hook as the beginning of the new one if it is a shell script, any other under the chained
      name, and where neither can be nothing is touched. A chained file that is there is never replaced. */
  predicate Installed(was: Slot, s: Slot, h: Hook, python: string, setup: Setup) {
    var post := h.PostCommit? || h.PostCheckout?;
    && (Foreign(was) && post && !setup.shell(Universal(was.main.value)) ==> s == was)
    && (Foreign(was) && !post && was.chained.Some? ==> s == was)
    && (s != was ==> s.runner == Some(setup.runner(h, python)))
    && (!Foreign(was) ==> s.runner == Some(setup.runner(h, python)) && s.chained == was.chained)
    && (was.main.Some? && !Foreign(was) ==> s.main == was.main)
    && (was.main.None? ==> s.main == Some(WRAPPER_HEAD + setup.wrapperTail(h)))
    && (Foreign(was) && post && setup.shell(Universal(was.main.value)) ==>
          && s.main == Some(was.main.value + ("\n" + MARKER_LINE + "\n" + CallLine(setup.dir, h)))
          && s.chained == was.chained && s.runner == Some(setup.runner(h, python)))
    && (Foreign(was) && !post && was.chained.None? ==>
          && s.main == Some(WRAPPER_HEAD + setup.wrapperTail(h)) && s.chained == was.main
          && s.runner == Some(setup.runner(h, python)))
  }

  /** The verdict tells which of these it was. */
  predicate Reports(was: Slot, verdict: Verdict, h: Hook, setup: Setup) {
    var post := h.PostCommit? || h.PostCheckout?;
    && (verdict.Created? <==> was.main.None?)
    && (verdict.Unchanged? <==> was.main.Some? && !Foreign(was))
    && (verdict.AppendedTo? <==> Foreign(was) && post && setup.shell(Universal(was.main.value)))
    && (verdict.SkippedScript? <==> Foreign(was) && post && !setup.shell(Universal(was.main.value)))
    && (verdict.SkippedChained? <==> Foreign(was) && !post && was.chained.Some?)
    && (verdict.Chained? <==> Foreign(was) && !post && was.chained.None?)
  }

  /** What an uninstall leaves of them: no runner; a wrapper gives way to what it was chained from; of a
      hook of ours that is no wrapper the call is taken out; and another's hook stays as it is. */
  predicate Uninstalled(was: Slot, s: Slot, h: Hook) {
    var wrapper := was.main.Some? && |WRAPPER_HEAD| <= |Universal(was.main.value)|
                   && Universal(was.main.value)[..|WRAPPER_HEAD|] == WRAPPER_HEAD;
    && s.runner.None?
    && (wrapper ==> s.main == was.chained && s.chained.None?)
    && (!wrapper ==> s.chained == was.chained)
    && (was.main.None? || (Foreign(was) && !wrapper) ==> s.main == was.main)
    && (was.main.Some? && !Foreign(was) && !wrapper ==>
          s.main == Some(Unappended(Universal(was.main.value), FileName(h, Runner))))
  }

  // ---------------------------------------------------------------- the directory

  function Lookup(files: Files, f: File): Option<string> {
    if f in files then Some(files[f]) else None
  }

  function SlotOf(files: Files, h: Hook): Slot {
    Slot(Lookup(files, HookFile(h, Main)), Lookup(files, HookFile(h, ChainedFrom)), Lookup(files, HookFile(h, Runner)))
  }

  function Write(files: Files, f: File, text: Option<string>): Files {
    if text.Some? then files[f := text.value] else files - {f}
  }

  function Put(files: Files, h: Hook, s: Slot): Files {
    Write(Write(Write(files, HookFile(h, Main), s.main), HookFile(h, ChainedFrom), s.chained), HookFile(h, Runner),
      s.runner)
  }

  /** The first `n` hooks of a list, one after the other. */
  function InstallAll(files: Files, hooks: seq<Hook>, n: nat, python: string, setup: Setup): Files
    requires n <= |hooks|
  {
    if n == 0 then files
    else
      var before := InstallAll(files, hooks, n - 1, python, setup);
      Put(before, hooks[n - 1], Install1(SlotOf(before, hooks[n - 1]), hooks[n - 1], python, setup).0)
  }

  /** The report of those installs, in order. */
  function Verdicts(files: Files, hooks: seq<Hook>, n: nat, python: string, setup: Setup): (r: seq<Verdict>)
    requires n <= |hooks|
    ensures |r| == n
  {
    if n == 0 then []
    else
      var before := InstallAll(files, hooks, n - 1, python, setup);
      Verdicts(files, hooks, n - 1, python, setup)
        + [Install1(SlotOf(before, hooks[n - 1]), hooks[n - 1], python, setup).1]
  }

  function UninstallAll(files: Files, hooks: seq<Hook>, n: nat): Files
    requires n <= |hooks|
  {
    if n == 0 then files
    else
      var before := UninstallAll(files, hooks, n - 1);
      Put(before, hooks[n - 1], Uninstall1(SlotOf(before, hooks[n - 1]), hooks[n - 1]))
  }

  lemma SameFiles(a: Files, b: Files, h: Hook)
    requires SlotOf(a, h) == SlotOf(b, h)
    requires forall f: File :: !(f.HookFile? && f.hook == h) ==> Lookup(a, f) == Lookup(b, f)
    ensures a == b
  {
    forall f: File ensures Lookup(a, f) == Lookup(b, f) {
      if f.HookFile? && f.hook == h {
        match f.part case Main => case ChainedFrom => case Runner =>
      }
    }
    assert forall f :: f in a <==> Lookup(a, f).Some?;
    assert forall f :: f in b <==> Lookup(b, f).Some?;
    assert forall f :: f in a && f in b ==> Lookup(a, f) == Some(a[f]) && Lookup(b, f) == Some(b[f]);
  }

  lemma PutThis(files: Files, h: Hook, s: Slot)
    ensures SlotOf(Put(files, h, s), h) == s
    ensures forall f: File :: !(f.HookFile? && f.hook == h) ==> Lookup(Put(files, h, s), f) == Lookup(files, f)
    ensures forall other :: other != h ==> SlotOf(Put(files, h, s), other) == SlotOf(files, other)
  {
  }

  class HooksDir {
    var files: Files
    const setup: Setup

    constructor (start: Files, where: Setup)
      ensures files == start && setup == where
    {
      files, setup := start, where;
    }

    /** `install`, for known hook names. */
    method Install(hooks: seq<Hook>, python: string) returns (report: seq<Verdict>)
      modifies this
      ensures files == InstallAll(old(files), hooks, |hooks|, python, setup)
      ensures report == Verdicts(old(files), hooks, |hooks|, python, setup)
    {
      report := [];
      for i := 0 to |hooks|
        invariant files == InstallAll(old(files), hooks, i, python, setup)
        invariant report == Verdicts(old(files), hooks, i, python, setup)
      {
        var verdict := InstallOne(hooks[i], python);
        report := report + [verdict];
      }
    }

    method InstallOne(h: Hook, python: string) returns (verdict: Verdict)
      modifies this
      ensures (SlotOf(files, h), verdict) == Install1(SlotOf(old(files), h), h, python, setup)
      ensures files == Put(old(files), h, SlotOf(files, h))
      ensures Installed(SlotOf(old(files), h), SlotOf(files, h), h, python, setup)
      ensures Reports(SlotOf(old(files), h), verdict, h, setup)
    {
      var main, chained, runner := HookFile(h, Main), HookFile(h, ChainedFrom), HookFile(h, Runner);
      ghost var was := files;
      if main in files {
        var text := Universal(files[main]);
        if Ours(text) {
          files := files[runner := setup.runner(h, python)];
          verdict := Unchanged;
        } else if IsPost(h) {
          if setup.shell(text) {
            files := files[runner := setup.runner(h, python)];
            files := files[main := files[main] + Appended(CallLine(setup.dir, h))];
            verdict := AppendedTo;
          } else {
            verdict := SkippedScript;
          }
        } else if chained in files {
          verdict := SkippedChained;
        } else {
          files := (files - {main})[chained := files[main]];
          files := files[runner := setup.runner(h, python)];
          files := files[main := WrapperText(setup, h)];
          verdict := Chained;
        }
      } else {
        files := files[runner := setup.runner(h, python)];
        files := files[main := WrapperText(setup, h)];
        verdict := Created;
      }
      PutThis(was, h, SlotOf(files, h));
      SameFiles(files, Put(was, h, SlotOf(files, h)), h);
    }

    /** `uninstall` */
    method Uninstall(hooks: seq<Hook>)
      modifies this
      ensures files == UninstallAll(old(files), hooks, |hooks|)
    {
      for i := 0 to |hooks|
        invariant files == UninstallAll(old(files), hooks, i)
      {
        UninstallOne(hooks[i]);
      }
    }

    method UninstallOne(h: Hook)
      modifies this
      ensures SlotOf(files, h) == Uninstall1(SlotOf(old(files), h), h)
      ensures files == Put(old(files), h, SlotOf(files, h))
      ensures Uninstalled(SlotOf(old(files), h), SlotOf(files, h), h)
    {
      var main, chained, runner := HookFile(h, Main), HookFile(h, ChainedFrom), HookFile(h, Runner);
      ghost var was := files;
      if main in files {
        var text := Universal(files[main]);
        if IsWrapper(text) {
          files := files - {main};
          if chained in files {
            files := (files - {chained})[main := files[chained]];
          }
        } else if Ours(text) {
          var kept := KeepLines(SplitLines(text), FileName(h, Runner));
          files := files[main := RStripChar(kept, '\n') + "\n"];
        }
      }
      if runner in files {
        files := files - {runner};
      }
      PutThis(was, h, SlotOf(files, h));
      SameFiles(files, Put(was, h, SlotOf(files, h)), h);
    }
  }
}
