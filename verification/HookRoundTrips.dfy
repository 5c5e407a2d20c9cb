/** Uninstalling undoes installing. */
module HookRoundTrips {
  import opened Wrappers
  import opened PyStrings
  import opened HookTexts
  import opened GitHooks

  // ---------------------------------------------------------------- texts

  lemma HeadMarker()
    ensures |WRAPPER_HEAD| == 37 && WRAPPER_HEAD[12..24] == MARKER
  {
    assert |"#!/bin/sh\n# "| == 12;
  }

  lemma HeadOf(text: string)
    requires IsWrapper(text)
    ensures |text| >= 37 && text[12..24] == MARKER && forall i :: 0 <= i < 37 ==> text[i] == WRAPPER_HEAD[i]
  {
    HeadMarker();
    assert text[..37][12..24] == text[12..24];
    assert forall i :: 0 <= i < 37 ==> text[i] == text[..37][i];
  }

  lemma HeadHasMarker(text: string)
    requires IsWrapper(text)
    ensures Ours(text)
  {
    HeadMarker();
    HeadOf(text);
    assert At(text, MARKER, 12);
  }

  lemma HeadIsPlain()
    ensures '\r' !in WRAPPER_HEAD && WRAPPER_HEAD != ""
  {
  }

  lemma WrapperReadsBack(setup: Setup, h: Hook)
    ensures IsWrapper(Universal(WrapperText(setup, h)))
  {
    HeadIsPlain();
    UniversalConcat(WRAPPER_HEAD, setup.wrapperTail(h), false);
    UniversalPlain(WRAPPER_HEAD);
  }

  lemma HeadBreaks(i: nat)
    requires i < 24 && WRAPPER_HEAD[i] == '\n'
    ensures i == 9
  {
  }

  /** A hook the call was appended to is recognised as ours, and not as a wrapper. */
  lemma AppendedReadsBack(t: string, call: string)
    requires !Ours(Universal(t))
    ensures var text := Universal(t + Appended(call)); Ours(text) && !IsWrapper(text)
  {
    var a, mark, c := Universal(t + "\n"), MARKER_LINE + "\n", Universal(call);
    var text := Universal(t + Appended(call));
    ReadAppended(t, call);
    MarkerLineIsOne();
    ContainsWithin(a, mark, c, MARKER);
    PlainRead(t);
    if IsWrapper(text) {
      HeadOf(text);
      WrapperIsNotAppended(a, mark, c);
    }
  }

  lemma WrapperIsNotAppended(a: string, mark: string, c: string)
    requires a != "" && a[|a| - 1] == '\n' && !Ours(a) && mark == MARKER_LINE + "\n"
    ensures !IsWrapper(a + mark + c)
  {
    var text := a + mark + c;
    if IsWrapper(text) {
      HeadOf(text);
      if |a| >= 24 {
        assert a[12..24] == text[12..24];
        assert At(a, MARKER, 12);
      } else {
        HeadBreaks(|a| - 1);
        MarkerEnd(text, mark);
      }
    }
  }

  lemma MarkerEnd(text: string, mark: string)
    requires IsWrapper(text) && mark == MARKER_LINE + "\n" && |text| >= 30
    ensures text[29] != mark[19]
  {
    HeadOf(text);
    HeadMarker();
    assert WRAPPER_HEAD[29] == " hook wrapper"[5];
  }

  // ---------------------------------------------------------------- one hook

  /** No runner, no chained file, no marker in the hook. */
  predicate Clean(s: Slot) {
    s.chained.None? && s.runner.None? && (s.main.Some? ==> !Ours(Universal(s.main.value)))
  }

  /** The hooks an install appends to. */
  predicate Appends(s: Slot, h: Hook, setup: Setup) {
    IsPost(h) && s.main.Some? && setup.shell(Universal(s.main.value))
  }

  /** Nothing but newlines stays of the call line when it is taken out again. */
  predicate CallClears(dir: string, h: Hook) {
    OnlyNewlines(Residue(CallLine(dir, h), FileName(h, Runner)))
  }

  function Restored(s: Slot, h: Hook, setup: Setup): Slot {
    if Appends(s, h, setup) then s.(main := Some(RStripChar(Universal(s.main.value), '\n') + "\n")) else s
  }

  /** What any number of installs makes of a clean slot, but for the runner's interpreter. */
  predicate Settled(start: Slot, s: Slot, h: Hook, setup: Setup) {
    var once := Install1(start, h, "", setup).0;
    s.main == once.main && s.chained == once.chained && (s.runner.Some? <==> once.runner.Some?)
  }

  /** A repeated install changes no hook, from any files and by any interpreters. */
  lemma InstallAgainChangesNoHook(start: Slot, h: Hook, python: string, again: string, setup: Setup)
    ensures var once := Install1(start, h, python, setup).0; var twice := Install1(once, h, again, setup).0;
            twice.main == once.main && twice.chained == once.chained && (twice.runner.Some? <==> once.runner.Some?)
  {
    WrapperReadsBack(setup, h);
    HeadHasMarker(Universal(WrapperText(setup, h)));
    if start.main.Some? && !Ours(Universal(start.main.value)) {
      AppendedReadsBack(start.main.value, CallLine(setup.dir, h));
    }
  }

  lemma InstallSettles(start: Slot, s: Slot, h: Hook, python: string, setup: Setup)
    requires s == start || Settled(start, s, h, setup)
    ensures Settled(start, Install1(s, h, python, setup).0, h, setup)
  {
    InstallAgainChangesNoHook(start, h, "", python, setup);
  }

  lemma NothingLost(was: Slot, s: Slot, h: Hook, python: string, setup: Setup)
    requires Installed(was, s, h, python, setup)
    ensures was.chained.Some? ==> s.chained == was.chained
    ensures was.main.Some? ==> s.chained == was.main || (s.main.Some? && was.main.value <= s.main.value)
    ensures s != was || !Foreign(was) ==> s.main.Some? && Ours(Universal(s.main.value))
  {
    WrapperReadsBack(setup, h);
    HeadHasMarker(Universal(WrapperText(setup, h)));
    if Foreign(was) {
      AppendedReadsBack(was.main.value, CallLine(setup.dir, h));
    }
  }

  /** From any files of a hook: an install leaves what is described, reports it, loses no text that was
      there, and unless it skips the hook leaves a current runner and a hook of ours. */
  lemma InstallPreserves(start: Slot, h: Hook, python: string, setup: Setup)
    ensures var (s, verdict) := Install1(start, h, python, setup);
            && Installed(start, s, h, python, setup) && Reports(start, verdict, h, setup)
            && (start.chained.Some? ==> s.chained == start.chained)
            && (start.main.Some? ==> s.chained == start.main || (s.main.Some? && start.main.value <= s.main.value))
            && (verdict in [SkippedScript, SkippedChained] ==> s == start)
            && (verdict !in [SkippedScript, SkippedChained] ==>
                  s.runner == Some(setup.runner(h, python)) && s.main.Some? && Ours(Universal(s.main.value)))
  {
    var s := Install1(start, h, python, setup).0;
    NothingLost(start, s, h, python, setup);
    if Foreign(start) {
      AppendedReadsBack(start.main.value, CallLine(setup.dir, h));
    }
  }

  /** Installing once more by the same interpreter leaves what the first install left. */
  lemma InstalledOnce(was: Slot, s: Slot, h: Hook, python: string, setup: Setup)
    requires s == was || Installed(was, s, h, python, setup)
    ensures Installed(was, Install1(s, h, python, setup).0, h, python, setup)
  {
    WrapperReadsBack(setup, h);
    HeadHasMarker(Universal(WrapperText(setup, h)));
    if Foreign(was) {
      AppendedReadsBack(was.main.value, CallLine(setup.dir, h));
    }
  }

  /** One uninstall gives the slot back exactly when an appended call can be taken out. */
  lemma UninstallRestores(start: Slot, s: Slot, h: Hook, setup: Setup)
    requires Clean(start) && Settled(start, s, h, setup)
    ensures Uninstall1(s, h) == Restored(start, h, setup) <==> (Appends(start, h, setup) ==> CallClears(setup.dir, h))
  {
    WrapperReadsBack(setup, h);
    if start.main.Some? {
      var t, call := start.main.value, CallLine(setup.dir, h);
      AppendedReadsBack(t, call);
      AppendRoundTrip(t, call, FileName(h, Runner));
      if IsWrapper(Universal(t)) { HeadHasMarker(Universal(t)); }
    }
  }

  lemma UninstallLeavesClean(s: Slot, h: Hook)
    requires Clean(s)
    ensures Uninstall1(s, h) == s
  {
    if s.main.Some? && IsWrapper(Universal(s.main.value)) { HeadHasMarker(Universal(s.main.value)); }
  }

  // ---------------------------------------------------------------- the whole directory

  datatype Run = Run(hooks: seq<Hook>, python: string)

  function InstallRuns(files: Files, runs: seq<Run>, n: nat, setup: Setup): Files
    requires n <= |runs|
  {
    if n == 0 then files
    else InstallAll(InstallRuns(files, runs, n - 1, setup), runs[n - 1].hooks, |runs[n - 1].hooks|,
      runs[n - 1].python, setup)
  }

  predicate Touched(runs: seq<Run>, n: nat, h: Hook)
    requires n <= |runs|
  {
    exists k :: 0 <= k < n && h in runs[k].hooks
  }

  predicate Tracks(start: Slot, s: Slot, h: Hook, setup: Setup, touched: bool) {
    if touched then Settled(start, s, h, setup) else s == start
  }

  lemma InstallOneTracks(start: Slot, before: Files, next: Hook, python: string, setup: Setup, h: Hook, touched: bool)
    requires Clean(start) && Tracks(start, SlotOf(before, h), h, setup, touched)
    ensures var after := Put(before, next, Install1(SlotOf(before, next), next, python, setup).0);
            && Tracks(start, SlotOf(after, h), h, setup, touched || next == h)
            && forall f: File :: f.OtherFile? ==> Lookup(after, f) == Lookup(before, f)
  {
    PutThis(before, next, Install1(SlotOf(before, next), next, python, setup).0);
    if next == h {
      InstallSettles(start, SlotOf(before, h), h, python, setup);
    }
  }

  lemma {:induction false} InstallAllTracks(start: Slot, files: Files, hooks: seq<Hook>, n: nat, python: string,
                                            setup: Setup, h: Hook, touched: bool)
    requires n <= |hooks| && Clean(start) && Tracks(start, SlotOf(files, h), h, setup, touched)
    ensures Tracks(start, SlotOf(InstallAll(files, hooks, n, python, setup), h), h, setup, touched || h in hooks[..n])
    ensures forall f: File :: f.OtherFile? ==> Lookup(InstallAll(files, hooks, n, python, setup), f) == Lookup(files, f)
  {
    if n > 0 {
      var before, next := InstallAll(files, hooks, n - 1, python, setup), hooks[n - 1];
      var seen := touched || h in hooks[..n - 1];
      InstallAllTracks(start, files, hooks, n - 1, python, setup, h, touched);
      assert hooks[..n] == hooks[..n - 1] + [next];
      InstallOneTracks(start, before, next, python, setup, h, seen);
      assert InstallAll(files, hooks, n, python, setup)
          == Put(before, next, Install1(SlotOf(before, next), next, python, setup).0);
    }
  }

  lemma {:induction false} InstallRunsTrack(start: Files, runs: seq<Run>, n: nat, setup: Setup, h: Hook)
    requires n <= |runs| && Clean(SlotOf(start, h))
    ensures Tracks(SlotOf(start, h), SlotOf(InstallRuns(start, runs, n, setup), h), h, setup, Touched(runs, n, h))
    ensures forall f: File :: f.OtherFile? ==> Lookup(InstallRuns(start, runs, n, setup), f) == Lookup(start, f)
  {
    if n > 0 {
      InstallRunsTrack(start, runs, n - 1, setup, h);
      var last := runs[n - 1];
      InstallAllTracks(SlotOf(start, h), InstallRuns(start, runs, n - 1, setup), last.hooks, |last.hooks|,
                       last.python, setup, h, Touched(runs, n - 1, h));
      assert last.hooks[..|last.hooks|] == last.hooks;
      assert Touched(runs, n, h) <==> Touched(runs, n - 1, h) || h in runs[n - 1].hooks;
    }
  }

  predicate NoRepeats(hooks: seq<Hook>) {
    forall i, j :: 0 <= i < j < |hooks| ==> hooks[i] != hooks[j]
  }

  lemma {:induction false} UninstallAllSlots(files: Files, hooks: seq<Hook>, n: nat, h: Hook)
    requires n <= |hooks| && NoRepeats(hooks)
    ensures SlotOf(UninstallAll(files, hooks, n), h)
         == if h in hooks[..n] then Uninstall1(SlotOf(files, h), h) else SlotOf(files, h)
    ensures forall f: File :: f.OtherFile? ==> Lookup(UninstallAll(files, hooks, n), f) == Lookup(files, f)
  {
    if n > 0 {
      UninstallAllSlots(files, hooks, n - 1, h);
      var before, next := UninstallAll(files, hooks, n - 1), hooks[n - 1];
      PutThis(before, next, Uninstall1(SlotOf(before, next), next));
      assert hooks[..n] == hooks[..n - 1] + [next];
      assert next !in hooks[..n - 1];
    }
  }

  /** From a directory with no runner, no chained file and no marker, any runs of `install`, then
      `uninstall`: every file is what it was, but for the post hooks the call was appended to, which
      get their own text back as read, with one trailing newline. This holds exactly when the call
      line of each of those can be taken out. */
  lemma RoundTrip(start: Files, runs: seq<Run>, hooks: seq<Hook>, setup: Setup)
    requires forall h :: Clean(SlotOf(start, h))
    requires NoRepeats(hooks) && forall h: Hook :: h in hooks
    ensures var end := UninstallAll(InstallRuns(start, runs, |runs|, setup), hooks, |hooks|);
            && (forall f: File :: f.OtherFile? ==> Lookup(end, f) == Lookup(start, f))
            && forall h :: if !Touched(runs, |runs|, h) then SlotOf(end, h) == SlotOf(start, h)
                           else SlotOf(end, h) == Restored(SlotOf(start, h), h, setup)
                                <==> (Appends(SlotOf(start, h), h, setup) ==> CallClears(setup.dir, h))
  {
    var installed := InstallRuns(start, runs, |runs|, setup);
    assert hooks[..|hooks|] == hooks;
    forall h
      ensures var end := UninstallAll(installed, hooks, |hooks|);
              if !Touched(runs, |runs|, h) then SlotOf(end, h) == SlotOf(start, h)
              else SlotOf(end, h) == Restored(SlotOf(start, h), h, setup)
                   <==> (Appends(SlotOf(start, h), h, setup) ==> CallClears(setup.dir, h))
    {
      InstallRunsTrack(start, runs, |runs|, setup, h);
      UninstallAllSlots(installed, hooks, |hooks|, h);
      if Touched(runs, |runs|, h) {
        UninstallRestores(SlotOf(start, h), SlotOf(installed, h), h, setup);
      } else {
        UninstallLeavesClean(SlotOf(start, h), h);
      }
    }
    InstallRunsTrack(start, runs, |runs|, setup, PreCommit);
    UninstallAllSlots(installed, hooks, |hooks|, PreCommit);
  }

  lemma {:induction false} InstallAllSlots(files: Files, hooks: seq<Hook>, n: nat, python: string, setup: Setup,
                                           h: Hook)
    requires n <= |hooks|
    ensures var was, s := SlotOf(files, h), SlotOf(InstallAll(files, hooks, n, python, setup), h);
            if h in hooks[..n] then Installed(was, s, h, python, setup) else s == was
    ensures forall f: File :: f.OtherFile? ==> Lookup(InstallAll(files, hooks, n, python, setup), f) == Lookup(files, f)
  {
    if n > 0 {
      InstallAllSlots(files, hooks, n - 1, python, setup, h);
      var before, next := InstallAll(files, hooks, n - 1, python, setup), hooks[n - 1];
      var s := Install1(SlotOf(before, next), next, python, setup).0;
      assert InstallAll(files, hooks, n, python, setup) == Put(before, next, s);
      PutThis(before, next, s);
      assert hooks[..n] == hooks[..n - 1] + [next];
      if next == h { InstalledOnce(SlotOf(files, h), SlotOf(before, h), h, python, setup); }
    }
  }

  lemma {:induction false} VerdictAt(files: Files, hooks: seq<Hook>, n: nat, k: nat, python: string, setup: Setup)
    requires k < n <= |hooks| && hooks[k] !in hooks[..k]
    ensures Reports(SlotOf(files, hooks[k]), Verdicts(files, hooks, n, python, setup)[k], hooks[k], setup)
  {
    if k == n - 1 {
      InstallAllSlots(files, hooks, n - 1, python, setup, hooks[k]);
      InstallPreserves(SlotOf(files, hooks[k]), hooks[k], python, setup);
    } else {
      VerdictAt(files, hooks, n - 1, k, python, setup);
    }
  }

  /** An install over any directory and any list of hooks, repeated or not: every listed hook is installed
      as described and reported where it is first listed, nothing that was there is lost, and nothing else
      changes. */
  lemma InstallKeepsAll(files: Files, hooks: seq<Hook>, python: string, setup: Setup)
    ensures var end := InstallAll(files, hooks, |hooks|, python, setup);
            && (forall f: File :: f.OtherFile? ==> Lookup(end, f) == Lookup(files, f))
            && (forall h :: h in hooks ==> Installed(SlotOf(files, h), SlotOf(end, h), h, python, setup))
            && (forall h :: h !in hooks ==> SlotOf(end, h) == SlotOf(files, h))
            && (forall h :: SlotOf(files, h).chained.Some? ==> SlotOf(end, h).chained == SlotOf(files, h).chained)
            && (forall h :: SlotOf(files, h).main.Some? ==>
                  var was, s := SlotOf(files, h), SlotOf(end, h);
                  s.chained == was.main || (s.main.Some? && was.main.value <= s.main.value))
    ensures forall k :: 0 <= k < |hooks| && hooks[k] !in hooks[..k] ==>
              Reports(SlotOf(files, hooks[k]), Verdicts(files, hooks, |hooks|, python, setup)[k], hooks[k], setup)
  {
    forall k | 0 <= k < |hooks| && hooks[k] !in hooks[..k]
      ensures Reports(SlotOf(files, hooks[k]), Verdicts(files, hooks, |hooks|, python, setup)[k], hooks[k], setup)
    {
      VerdictAt(files, hooks, |hooks|, k, python, setup);
    }
    var end := InstallAll(files, hooks, |hooks|, python, setup);
    assert hooks[..|hooks|] == hooks;
    InstallAllSlots(files, hooks, |hooks|, python, setup, PreCommit);
    forall h
      ensures var was, s := SlotOf(files, h), SlotOf(end, h);
              && (if h in hooks then Installed(was, s, h, python, setup) else s == was)
              && (was.chained.Some? ==> s.chained == was.chained)
              && (was.main.Some? ==> s.chained == was.main || (s.main.Some? && was.main.value <= s.main.value))
    {
      InstallAllSlots(files, hooks, |hooks|, python, setup, h);
      if h in hooks { NothingLost(SlotOf(files, h), SlotOf(end, h), h, python, setup); }
    }
  }

  /** An uninstall over any directory: of every listed hook the runner is gone and the wrapper or the call
      taken out, a chained text is still there, and nothing else changes. */
  lemma UninstallKeepsAll(files: Files, hooks: seq<Hook>)
    requires NoRepeats(hooks)
    ensures var end := UninstallAll(files, hooks, |hooks|);
            && (forall f: File :: f.OtherFile? ==> Lookup(end, f) == Lookup(files, f))
            && (forall h :: h in hooks ==> Uninstalled(SlotOf(files, h), SlotOf(end, h), h))
            && (forall h :: h !in hooks ==> SlotOf(end, h) == SlotOf(files, h))
            && (forall h :: SlotOf(files, h).chained.Some? ==>
                  SlotOf(files, h).chained in [SlotOf(end, h).main, SlotOf(end, h).chained])
  {
    assert hooks[..|hooks|] == hooks;
    UninstallAllSlots(files, hooks, |hooks|, PreCommit);
    forall h
      ensures var was, s := SlotOf(files, h), SlotOf(UninstallAll(files, hooks, |hooks|), h);
              && (if h in hooks then Uninstalled(was, s, h) else s == was)
              && (was.chained.Some? ==> was.chained in [s.main, s.chained])
    {
      UninstallAllSlots(files, hooks, |hooks|, h);
    }
  }

  // ---------------------------------------------------------------- which directories clear

  lemma NamesArePlain(h: Hook)
    ensures forall k :: 0 <= k < |FileName(h, Runner)| ==> !IsBreak(FileName(h, Runner)[k])
  {
    match h case PreCommit => case PreMergeCommit => case PrepareCommitMsg => case PostCommit => case PostCheckout =>
  }

  lemma TailIsPlain(tail: string)
    requires tail == "\" \"$@\"\n"
    ensures tail != "" && tail[|tail| - 1] == '\n' && forall k :: 0 <= k < |tail| - 1 ==> !IsBreak(tail[k])
  {
  }

  /** A hooks directory whose path has no line break: the call can always be taken out. */
  lemma PlainDirClears(dir: string, h: Hook)
    requires forall k :: 0 <= k < |dir| ==> !IsBreak(dir[k])
    ensures CallClears(dir, h)
  {
    var name, tail := FileName(h, Runner), "\" \"$@\"\n";
    var head := "\"" + dir + "/";
    var call := head + name + tail;
    NamesArePlain(h);
    TailIsPlain(tail);
    assert CallLine(dir, h) == call;
    assert Contains(name, name) by { assert name[0..|name|] == name; assert At(name, name, 0); }
    ContainsWithin(head, name, tail, name);
    assert forall k :: 0 <= k < |head| ==> !IsBreak(head[k]);
    assert call[0] == '"';
    NotMarkerLine(call);
    PlainCallVanishes(call, name);
  }

  lemma Regroup(quote: string, before: string, c: string, after: string, slash: string, name: string, tail: string)
    ensures quote + (before + c + after) + slash + name + tail == (quote + before + c) + (after + slash + name + tail)
  {
  }

  /** A path broken by a character `str.splitlines` breaks at leaves a piece of the call behind,
      unless the runner's own name stands before the break. */
  lemma BrokenDirStays(before: string, c: char, after: string, h: Hook)
    requires IsBreak(c) && c != '\r' && forall k :: 0 <= k < |before| ==> !IsBreak(before[k])
    requires !Contains("\"" + before + [c], FileName(h, Runner))
    ensures !CallClears(before + [c] + after, h)
  {
    var first, rest := "\"" + before + [c], after + "/" + FileName(h, Runner) + "\" \"$@\"\n";
    Regroup("\"", before, [c], after, "/", FileName(h, Runner), "\" \"$@\"\n");
    assert forall k :: 0 <= k < |first| - 1 ==> first[k] == '"' || first[k] == before[k - 1];
    BrokenCallStays(first, rest, FileName(h, Runner));
  }
}
