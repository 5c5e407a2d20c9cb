/** Lock expiry and the session reaper of background_tasks.py. Times and windows are integers. */
module Reaper {
  import opened Wrappers
  import opened ScopePaths
  import Outbox
  import OutboxReplay

  type Sid = string

  datatype Status = Active | Paused | Completed

  datatype JournalEntry = JournalEntry(pattern: string, exclusive: bool, reason: string, expiresAt: int, createdAt: int)

  /** The locks a reap took away, and the root their patterns belong to. */
  datatype Journal = Journal(repoRoot: string, locks: seq<JournalEntry>)

  datatype Session = Session(status: Status, startedAt: int, lastHeartbeat: Option<int>, repoRoot: string,
                             completedAt: Option<int>, autoCompleted: bool, reapedLocks: Option<Journal>)

  datatype Lock = Lock(id: string, sid: Sid, pattern: string, exclusive: bool, reason: string,
                       createdAt: int, expiresAt: int)

  datatype Stamp = Stamp(sid: Sid, at: int)

  /** `decisions` holds no work-admission records; `handoffs` names the sessions that left one. */
  datatype World = World(sessions: map<Sid, Session>, locks: seq<Lock>, commits: seq<Stamp>, decisions: seq<Stamp>,
                         handoffs: set<Sid>, outbox: Outbox.Table)

  datatype Windows = Windows(fast: int, slow: int)

  // ---------------------------------------------------------------- the verdict

  function Later(a: Option<int>, b: Option<int>): Option<int> {
    if a.None? then b else if b.None? || b.value <= a.value then a else b
  }

  /** SELECT max(created_at) over one session's rows */
  function Newest(stamps: seq<Stamp>, sid: Sid): Option<int> {
    if stamps == [] then None
    else Later(if stamps[0].sid == sid then Some(stamps[0].at) else None, Newest(stamps[1..], sid))
  }

  function LockStamps(locks: seq<Lock>): seq<Stamp> {
    seq(|locks|, k requires 0 <= k < |locks| => Stamp(locks[k].sid, locks[k].createdAt))
  }

  function LastActivity(s: Session, w: World, sid: Sid): int {
    Later(Some(s.startedAt),
          Later(Newest(LockStamps(w.locks), sid),
                Later(Newest(w.commits, sid), Later(Newest(w.decisions, sid), s.lastHeartbeat)))).value
  }

  function Cutoff(s: Session, now: int, windows: Windows): int {
    now - (if s.lastHeartbeat.Some? then windows.fast else windows.slow)
  }

  /** `judge` */
  predicate Idle(s: Session, w: World, sid: Sid, now: int, windows: Windows) {
    LastActivity(s, w, sid) < Cutoff(s, now, windows)
  }

  predicate Did(stamps: seq<Stamp>, sid: Sid, at: int) {
    Stamp(sid, at) in stamps
  }

  /** Something the session did at `at`. */
  predicate ActedAt(s: Session, w: World, sid: Sid, at: int) {
    || at == s.startedAt || s.lastHeartbeat == Some(at)
    || Did(LockStamps(w.locks), sid, at) || Did(w.commits, sid, at) || Did(w.decisions, sid, at)
  }

  lemma {:induction false} NewestIsMax(stamps: seq<Stamp>, sid: Sid)
    ensures forall at :: Did(stamps, sid, at) ==> Newest(stamps, sid).Some? && at <= Newest(stamps, sid).value
    ensures Newest(stamps, sid).Some? ==> Did(stamps, sid, Newest(stamps, sid).value)
  {
    if stamps != [] {
      NewestIsMax(stamps[1..], sid);
      assert stamps == [stamps[0]] + stamps[1..];
      assert forall at :: Did(stamps, sid, at) <==> stamps[0] == Stamp(sid, at) || Did(stamps[1..], sid, at);
    }
  }

  /** Before the session's own window: the fast one for a session with a heartbeat, else the slow one. */
  predicate Past(s: Session, at: int, now: int, windows: Windows) {
    if s.lastHeartbeat == None then at + windows.slow < now else at + windows.fast < now
  }

  /** A session is idle exactly when everything it ever did is older than its own window. */
  lemma IdleMeansSilent(s: Session, w: World, sid: Sid, now: int, windows: Windows)
    ensures Idle(s, w, sid, now, windows) <==> forall at :: ActedAt(s, w, sid, at) ==> Past(s, at, now, windows)
  {
    NewestIsMax(LockStamps(w.locks), sid);
    NewestIsMax(w.commits, sid);
    NewestIsMax(w.decisions, sid);
    assert ActedAt(s, w, sid, LastActivity(s, w, sid));
    assert forall at :: ActedAt(s, w, sid, at) ==> at <= LastActivity(s, w, sid);
  }

  // ---------------------------------------------------------------- one retirement

  function LocksOf(locks: seq<Lock>, sid: Sid): seq<Lock> {
    if locks == [] then []
    else (if locks[0].sid == sid then [locks[0]] else []) + LocksOf(locks[1..], sid)
  }

  function LocksNotOf(locks: seq<Lock>, sid: Sid): seq<Lock> {
    if locks == [] then []
    else (if locks[0].sid != sid then [locks[0]] else []) + LocksNotOf(locks[1..], sid)
  }

  function EntryOf(l: Lock): JournalEntry {
    JournalEntry(l.pattern, l.exclusive, l.reason, l.expiresAt, l.createdAt)
  }

  function Entries(locks: seq<Lock>): seq<JournalEntry> {
    seq(|locks|, k requires 0 <= k < |locks| => EntryOf(locks[k]))
  }

  predicate Retires(w: World, sid: Sid, now: int, windows: Windows) {
    sid in w.sessions && w.sessions[sid].status == Active && Idle(w.sessions[sid], w, sid, now, windows)
  }

  function ReapedSession(w: World, sid: Sid, now: int): Session
    requires sid in w.sessions
  {
    w.sessions[sid].(status := Completed, completedAt := Some(now), autoCompleted := true,
                     reapedLocks := Some(Journal(CanonicalRoot(w.sessions[sid].repoRoot),
                       Entries(LocksOf(w.locks, sid)))))
  }

  /** The sweep's clock: `now`, its ISO text, and the insertion time of the row it records. */
  datatype Clock = Clock(now: int, text: string, inserted: int)

  function EventRow(w: World, sid: Sid, clock: Clock): Outbox.Row {
    Outbox.NewRow(clock.inserted, clock.inserted, Outbox.Reaped, sid in w.handoffs)
  }

  function Retired(w: World, sid: Sid, clock: Clock): World
    requires sid in w.sessions
  {
    w.(sessions := w.sessions[sid := ReapedSession(w, sid, clock.now)], locks := LocksNotOf(w.locks, sid),
       outbox := Outbox.RecordRow(w.outbox, OutboxReplay.EventIdFor(sid, clock.text), EventRow(w, sid, clock)))
  }

  /** The guarded transaction of pass 2 for one candidate. */
  function Retire(w: World, sid: Sid, clock: Clock, windows: Windows): World {
    if Retires(w, sid, clock.now, windows) then Retired(w, sid, clock) else w
  }

  /** Pass 2 over the candidates; `others[k]` is whatever commits before the k-th guarded transaction. */
  function RetireAll(w: World, candidates: seq<Sid>, others: seq<World -> World>, clock: Clock,
                     windows: Windows): (World, nat)
    requires |candidates| <= |others|
    decreases |candidates|
  {
    if candidates == [] then (w, 0)
    else
      var here := others[0](w);
      var (end, n) := RetireAll(Retire(here, candidates[0], clock, windows), candidates[1..], others[1..], clock,
        windows);
      (end, n + if Retires(here, candidates[0], clock.now, windows) then 1 else 0)
  }

  /** A session's locks, and everybody else's. */
  lemma {:induction false} LocksSplit(locks: seq<Lock>, sid: Sid)
    ensures forall l :: l in LocksOf(locks, sid) <==> l in locks && l.sid == sid
    ensures forall l :: l in LocksNotOf(locks, sid) <==> l in locks && l.sid != sid
  {
    if locks != [] {
      LocksSplit(locks[1..], sid);
      assert locks == [locks[0]] + locks[1..];
    }
  }

  lemma {:induction false} LocksAddUp(locks: seq<Lock>, sid: Sid)
    ensures multiset(LocksOf(locks, sid)) + multiset(LocksNotOf(locks, sid)) == multiset(locks)
  {
    if locks != [] {
      LocksAddUp(locks[1..], sid);
      assert locks == [locks[0]] + locks[1..];
    }
  }

  lemma {:induction false} OthersLocks(locks: seq<Lock>, sid: Sid, other: Sid)
    requires other != sid
    ensures LocksOf(LocksNotOf(locks, sid), other) == LocksOf(locks, other)
  {
    if locks != [] {
      OthersLocks(locks[1..], sid, other);
      var rest := LocksNotOf(locks[1..], sid);
      assert LocksNotOf(locks, sid) == if locks[0].sid != sid then [locks[0]] + rest else rest;
      assert ([locks[0]] + rest)[1..] == rest;
    }
  }

  /** The journal has one entry for each lock, with that lock's own pattern, mode, reason and clock. */
  predicate Journals(entries: seq<JournalEntry>, locks: seq<Lock>) {
    && |entries| == |locks|
    && forall k :: 0 <= k < |locks| ==>
         && entries[k].pattern == locks[k].pattern && entries[k].exclusive == locks[k].exclusive
         && entries[k].reason == locks[k].reason
         && entries[k].createdAt == locks[k].createdAt && entries[k].expiresAt == locks[k].expiresAt
  }

  lemma {:induction false} NoLocksLeft(locks: seq<Lock>, sid: Sid)
    requires forall l :: l in locks ==> l.sid != sid
    ensures LocksOf(locks, sid) == []
  {
    if locks != [] {
      NoLocksLeft(locks[1..], sid);
    }
  }

  /** Active, with nothing done inside its own window. */
  ghost predicate Silent(w: World, sid: Sid, now: int, windows: Windows) {
    && sid in w.sessions && w.sessions[sid].status == Active
    && forall at :: ActedAt(w.sessions[sid], w, sid, at) ==> Past(w.sessions[sid], at, now, windows)
  }

  lemma RetiresTheSilent(w: World, sid: Sid, now: int, windows: Windows)
    ensures Retires(w, sid, now, windows) <==> Silent(w, sid, now, windows)
  {
    if sid in w.sessions {
      IdleMeansSilent(w.sessions[sid], w, sid, now, windows);
    }
  }

  /** A retirement touches the sessions, locks, events and records of nobody else, and a session that
      is not silent in the state the transaction commits against keeps all of its own. */
  lemma RetirementSparesTheRest(w: World, sid: Sid, clock: Clock, windows: Windows)
    ensures var after := Retire(w, sid, clock, windows);
            && (!Silent(w, sid, clock.now, windows) ==> after == w)
            && after.sessions.Keys == w.sessions.Keys
            && (forall s :: s in w.sessions && s != sid ==> after.sessions[s] == w.sessions[s])
            && (forall s :: s != sid ==> LocksOf(after.locks, s) == LocksOf(w.locks, s))
            && (forall id :: id in w.outbox ==> id in after.outbox && after.outbox[id] == w.outbox[id])
            && after.commits == w.commits && after.decisions == w.decisions && after.handoffs == w.handoffs
  {
    RetiresTheSilent(w, sid, clock.now, windows);
    forall s | s != sid ensures LocksOf(LocksNotOf(w.locks, sid), s) == LocksOf(w.locks, s) {
      OthersLocks(w.locks, sid, s);
    }
  }

  /** A session that is active, and did everything longer ago than its own window, in the state the
      transaction commits against: it is completed by the reaper, its locks are gone, each journalled
      once with its own clock under the root it was authored in, and one reaped event is recorded
      unless that id already had one. */
  lemma RetirementIsExact(w: World, sid: Sid, clock: Clock, windows: Windows)
    requires Silent(w, sid, clock.now, windows)
    ensures var after := Retire(w, sid, clock, windows); var id := OutboxReplay.EventIdFor(sid, clock.text);
            && sid in after.sessions
            && after.sessions[sid].status == Completed && after.sessions[sid].autoCompleted
            && after.sessions[sid].completedAt == Some(clock.now)
            && after.sessions[sid].startedAt == w.sessions[sid].startedAt
            && after.sessions[sid].lastHeartbeat == w.sessions[sid].lastHeartbeat
            && after.sessions[sid].repoRoot == w.sessions[sid].repoRoot
            && LocksOf(after.locks, sid) == []
            && multiset(LocksOf(w.locks, sid)) + multiset(after.locks) == multiset(w.locks)
            && after.sessions[sid].reapedLocks.Some?
            && after.sessions[sid].reapedLocks.value.repoRoot == CanonicalRoot(w.sessions[sid].repoRoot)
            && Journals(after.sessions[sid].reapedLocks.value.locks, LocksOf(w.locks, sid))
            && after.outbox.Keys == w.outbox.Keys + {id}
            && (id !in w.outbox ==>
               after.outbox[id] == Outbox.NewRow(clock.inserted, clock.inserted, Outbox.Reaped, sid in w.handoffs))
  {
    RetiresTheSilent(w, sid, clock.now, windows);
    LocksSplit(w.locks, sid);
    LocksAddUp(w.locks, sid);
    NoLocksLeft(LocksNotOf(w.locks, sid), sid);
    EntriesJournal(LocksOf(w.locks, sid));
  }

  lemma EntriesJournal(locks: seq<Lock>)
    ensures Journals(Entries(locks), locks)
  {
  }

  // ---------------------------------------------------------------- the sweeps

  /** What the first `n` transactions of an interrupted pass 2 make of the world. */
  function RetireFirst(w: World, candidates: seq<Sid>, others: seq<World -> World>, clock: Clock, windows: Windows,
                       n: nat): World
    requires n <= |candidates| <= |others|
  {
    if n == 0 then w
    else Retire(others[n - 1](RetireFirst(w, candidates, others, clock, windows, n - 1)), candidates[n - 1], clock,
      windows)
  }

  /** The world the k-th transaction sees. */
  function SeenAt(w: World, candidates: seq<Sid>, others: seq<World -> World>, clock: Clock, windows: Windows,
                  k: nat): World
    requires k < |candidates| <= |others|
  {
    others[k](RetireFirst(w, candidates, others, clock, windows, k))
  }

  /** Whether the k-th transaction sees its candidate silent. */
  ghost predicate SeesSilent(w: World, candidates: seq<Sid>, others: seq<World -> World>, clock: Clock,
                             windows: Windows, k: nat) {
    k < |candidates| <= |others|
      && Silent(SeenAt(w, candidates, others, clock, windows, k), candidates[k], clock.now, windows)
  }

  lemma RetireAllStep(here: World, candidates: seq<Sid>, others: seq<World -> World>, clock: Clock, windows: Windows,
                      m: nat)
    requires m < |candidates| <= |others|
    ensures var seen := others[m](here);
            var next := Retire(seen, candidates[m], clock, windows);
            var rest := RetireAll(next, candidates[m + 1..], others[m + 1..], clock, windows);
            RetireAll(here, candidates[m..], others[m..], clock, windows)
            == (rest.0, rest.1 + if Retires(seen, candidates[m], clock.now, windows) then 1 else 0)
  {
    assert candidates[m..][0] == candidates[m] && candidates[m..][1..] == candidates[m + 1..];
    assert others[m..][0] == others[m] && others[m..][1..] == others[m + 1..];
  }

  /** The first `n` transactions have completed `count` sessions, and the rest of the sweep follows. */
  ghost predicate SweptTo(w: World, candidates: seq<Sid>, others: seq<World -> World>, clock: Clock,
                          windows: Windows, n: nat, count: nat) {
    n <= |candidates| <= |others| &&
    var here := RetireFirst(w, candidates, others, clock, windows, n);
    var rest := RetireAll(here, candidates[n..], others[n..], clock, windows);
    RetireAll(w, candidates, others, clock, windows) == (rest.0, count + rest.1)
  }

  lemma SweptNext(w: World, candidates: seq<Sid>, others: seq<World -> World>, clock: Clock, windows: Windows,
                  n: nat, count: nat, retires: bool)
    requires n < |candidates| && SweptTo(w, candidates, others, clock, windows, n, count)
    requires retires <==> Retires(SeenAt(w, candidates, others, clock, windows, n), candidates[n], clock.now, windows)
    ensures SweptTo(w, candidates, others, clock, windows, n + 1, count + if retires then 1 else 0)
  {
    RetireAllStep(RetireFirst(w, candidates, others, clock, windows, n), candidates, others, clock, windows, n);
  }

  lemma SweptStart(w: World, candidates: seq<Sid>, others: seq<World -> World>, clock: Clock, windows: Windows)
    requires |candidates| <= |others|
    ensures SweptTo(w, candidates, others, clock, windows, 0, 0)
  {
    assert candidates[0..] == candidates && others[0..] == others;
  }

  lemma SweptSilent(w: World, candidates: seq<Sid>, others: seq<World -> World>, clock: Clock, windows: Windows,
                    k: nat, c: nat)
    requires k < |candidates| && SweptTo(w, candidates, others, clock, windows, k, c)
    ensures SweptTo(w, candidates, others, clock, windows, k + 1,
                    c + if SeesSilent(w, candidates, others, clock, windows, k) then 1 else 0)
  {
    var retires := SeesSilent(w, candidates, others, clock, windows, k);
    RetiresTheSilent(SeenAt(w, candidates, others, clock, windows, k), candidates[k], clock.now, windows);
    SweptNext(w, candidates, others, clock, windows, k, c, retires);
  }

  ghost function SilentBelow(w: World, candidates: seq<Sid>, others: seq<World -> World>, clock: Clock,
                             windows: Windows, n: nat): set<nat> {
    set k: nat | k < n && SeesSilent(w, candidates, others, clock, windows, k)
  }

  lemma OneMoreSilent(w: World, candidates: seq<Sid>, others: seq<World -> World>, clock: Clock, windows: Windows,
                      n: nat)
    ensures var silent := SeesSilent(w, candidates, others, clock, windows, n);
            |SilentBelow(w, candidates, others, clock, windows, n + 1)|
            == |SilentBelow(w, candidates, others, clock, windows, n)| + if silent then 1 else 0
  {
    var silent := SeesSilent(w, candidates, others, clock, windows, n);
    assert SilentBelow(w, candidates, others, clock, windows, n + 1)
        == SilentBelow(w, candidates, others, clock, windows, n) + if silent then {n} else {};
  }

  lemma {:induction false} SweptFirst(w: World, candidates: seq<Sid>, others: seq<World -> World>, clock: Clock,
                                      windows: Windows, n: nat)
    requires n <= |candidates| <= |others|
    ensures SweptTo(w, candidates, others, clock, windows, n, |SilentBelow(w, candidates, others, clock, windows, n)|)
  {
    if n == 0 {
      SweptStart(w, candidates, others, clock, windows);
      assert SilentBelow(w, candidates, others, clock, windows, 0) == {};
    } else {
      var count := |SilentBelow(w, candidates, others, clock, windows, n - 1)|;
      SweptFirst(w, candidates, others, clock, windows, n - 1);
      SweptSilent(w, candidates, others, clock, windows, n - 1, count);
      OneMoreSilent(w, candidates, others, clock, windows, n - 1);
    }
  }

  /** An interrupted sweep completes a session exactly where its transaction sees it silent. */
  lemma SweepCounts(w: World, candidates: seq<Sid>, others: seq<World -> World>, clock: Clock, windows: Windows)
    requires |candidates| <= |others|
    ensures var all := RetireAll(w, candidates, others, clock, windows); var n := |candidates|;
            && all.0 == RetireFirst(w, candidates, others, clock, windows, n)
            && all.1 == |set k: nat | k < n && SeesSilent(w, candidates, others, clock, windows, k)|
  {
    SweptFirst(w, candidates, others, clock, windows, |candidates|);
  }

  /** An answer to the SELECT of active sessions. */
  ghost predicate ActiveSelection(w: World, rows: seq<Sid>) {
    forall sid :: sid in rows <==> sid in w.sessions && w.sessions[sid].status == Active
  }

  /** The rows `looks` accepts, each judged in the world of its own moment: pass 1 takes no lock. */
  function Looking(snapshot: map<Sid, Session>, rows: seq<Sid>, worlds: seq<World>, now: int,
                   windows: Windows): seq<Sid>
    requires |rows| == |worlds| && forall k :: 0 <= k < |rows| ==> rows[k] in snapshot
  {
    if rows == [] then []
    else
      var n := |rows| - 1;
      Looking(snapshot, rows[..n], worlds[..n], now, windows)
      + if Idle(snapshot[rows[n]], worlds[n], rows[n], now, windows) then [rows[n]] else []
  }

  predicate LiveExclusiveOwner(s: Session, stale: Session -> bool) {
    s.status == Active || (s.status == Paused && !stale(s))
  }

  /** Due for `check_expired_locks`: past its time, and not the exclusive lock of a session that is active,
      or paused and not stale. */
  predicate Due(l: Lock, w: World, now: int, stale: Session -> bool) {
    l.expiresAt <= now && l.sid in w.sessions &&
    (l.exclusive ==> match w.sessions[l.sid].status
                     case Active => false
                     case Paused => stale(w.sessions[l.sid])
                     case Completed => true)
  }

  /** `kept` are the locks at the places `at`, in order: all places but those of the due locks. */
  ghost predicate KeepsTheRest(locks: seq<Lock>, kept: seq<Lock>, at: seq<int>, due: Lock -> bool) {
    && |kept| == |at|
    && (forall k :: 0 <= k < |at| ==> 0 <= at[k] < |locks| && kept[k] == locks[at[k]])
    && (forall j, k :: 0 <= j < k < |at| ==> at[j] < at[k])
    && (forall i :: 0 <= i < |locks| ==> (i in at <==> !due(locks[i])))
  }

  lemma KeptOnes(locks: seq<Lock>, kept: seq<Lock>, at: seq<int>, due: Lock -> bool)
    requires KeepsTheRest(locks, kept, at, due)
    ensures forall l :: l in kept <==> l in locks && !due(l)
  {
    forall l ensures l in kept <==> l in locks && !due(l) {
      if l in kept {
        var k :| 0 <= k < |kept| && kept[k] == l;
        assert at[k] in at;
      }
      if l in locks && !due(l) {
        var i :| 0 <= i < |locks| && locks[i] == l;
        var k :| 0 <= k < |at| && at[k] == i;
        assert kept[k] == l;
      }
    }
  }

  lemma DropsOne(locks: seq<Lock>, kept: seq<Lock>, at: seq<int>, due: Lock -> bool, l: Lock)
    requires KeepsTheRest(locks, kept, at, due) && due(l)
    ensures KeepsTheRest(locks + [l], kept, at, due)
  {
  }

  lemma KeepsOne(locks: seq<Lock>, kept: seq<Lock>, at: seq<int>, due: Lock -> bool, l: Lock)
    requires KeepsTheRest(locks, kept, at, due) && !due(l)
    ensures KeepsTheRest(locks + [l], kept + [l], at + [|locks|], due)
  {
  }

  class Service {
    var w: World

    constructor (start: World)
      ensures w == start
    {
      w := start;
    }

    method CheckExpiredLocks(now: int, stale: Session -> bool) returns (swept: nat, ghost at: seq<int>)
      modifies this
      ensures w == old(w).(locks := w.locks)
      ensures KeepsTheRest(old(w).locks, w.locks, at, l => Due(l, old(w), now, stale))
      ensures swept == |old(w).locks| - |w.locks|
    {
      ghost var due := l => Due(l, old(w), now, stale);
      var kept: seq<Lock> := [];
      swept, at := 0, [];
      for i := 0 to |w.locks|
        invariant w == old(w)
        invariant KeepsTheRest(w.locks[..i], kept, at, due)
        invariant swept == i - |kept|
      {
        var l := w.locks[i];
        assert w.locks[..i + 1] == w.locks[..i] + [l];
        if l.expiresAt <= now && l.sid in w.sessions && !(l.exclusive && LiveExclusiveOwner(w.sessions[l.sid], stale)) {
          swept := swept + 1;
          DropsOne(w.locks[..i], kept, at, due, l);
        } else {
          KeepsOne(w.locks[..i], kept, at, due, l);
          kept := kept + [l];
          at := at + [i];
        }
      }
      assert w.locks[..|w.locks|] == w.locks;
      w := w.(locks := kept);
    }

    /** The guarded transaction: read again, judge, compare-and-set, journal, delete, record. */
    method RetireOne(sid: Sid, clock: Clock, windows: Windows) returns (done: bool)
      modifies this
      ensures w == Retire(old(w), sid, clock, windows)
      ensures done == Retires(old(w), sid, clock.now, windows)
    {
      if sid !in w.sessions || w.sessions[sid].status != Active || !Idle(w.sessions[sid], w, sid, clock.now, windows) {
        return false;
      }
      var judged := w.sessions[sid].lastHeartbeat;
      done := w.sessions[sid].status == Active && w.sessions[sid].lastHeartbeat == judged;
      if done {
        var released := LocksOf(w.locks, sid);
        var s := w.sessions[sid].(status := Completed, completedAt := Some(clock.now), autoCompleted := true);
        s := s.(reapedLocks := Some(Journal(CanonicalRoot(s.repoRoot), Entries(released))));
        w := w.(sessions := w.sessions[sid := s], locks := LocksNotOf(w.locks, sid));
        var id := OutboxReplay.EventIdFor(sid, clock.text);
        if id !in w.outbox {
          w := w.(outbox := w.outbox[id := EventRow(w, sid, clock)]);
        }
      }
    }

    /** `auto_complete_stale_sessions`. `rows` answers pass 1's SELECT; `meanwhile[k]` is the world the
        k-th judgement of pass 1 read, and `others[k]` what commits before the k-th transaction. */
    method AutoComplete(rows: seq<Sid>, meanwhile: seq<World>, others: seq<World -> World>, clock: Clock,
                        windows: Windows)
      returns (completed: nat, ghost candidates: seq<Sid>)
      requires ActiveSelection(w, rows) && |meanwhile| == |rows| <= |others|
      modifies this
      ensures forall k :: 0 <= k < |rows| ==> rows[k] in old(w).sessions
      ensures candidates == Looking(old(w).sessions, rows, meanwhile, clock.now, windows) && |candidates| <= |others|
      ensures (w, completed) == RetireAll(old(w), candidates, others, clock, windows)
      ensures completed == |set k: nat | k < |candidates| && SeesSilent(old(w), candidates, others, clock, windows, k)|
      ensures w == RetireFirst(old(w), candidates, others, clock, windows, |candidates|)
    {
      var looking := Looks(rows, meanwhile, clock.now, windows);
      candidates := looking;
      completed := RetireRound(looking, others, clock, windows);
      SweepCounts(old(w), candidates, others, clock, windows);
    }

    /** Pass 1, which only reads. */
    method Looks(rows: seq<Sid>, meanwhile: seq<World>, now: int, windows: Windows) returns (looking: seq<Sid>)
      requires ActiveSelection(w, rows) && |meanwhile| == |rows|
      ensures forall k :: 0 <= k < |rows| ==> rows[k] in w.sessions
      ensures looking == Looking(w.sessions, rows, meanwhile, now, windows) && |looking| <= |rows|
    {
      assert forall k :: 0 <= k < |rows| ==> rows[k] in rows;
      looking := [];
      for i := 0 to |rows|
        invariant |looking| <= i
        invariant looking == Looking(w.sessions, rows[..i], meanwhile[..i], now, windows)
      {
        assert rows[..i + 1][..i] == rows[..i] && meanwhile[..i + 1][..i] == meanwhile[..i];
        if Idle(w.sessions[rows[i]], meanwhile[i], rows[i], now, windows) {
          looking := looking + [rows[i]];
        }
      }
      assert rows[..|rows|] == rows && meanwhile[..|rows|] == meanwhile;
    }

    /** Pass 2, a transaction for each candidate. */
    method RetireRound(looking: seq<Sid>, others: seq<World -> World>, clock: Clock, windows: Windows)
      returns (completed: nat)
      requires |looking| <= |others|
      modifies this
      ensures (w, completed) == RetireAll(old(w), looking, others, clock, windows)
    {
      completed := 0;
      assert looking[0..] == looking && others[0..] == others;
      for i := 0 to |looking|
        invariant var all := RetireAll(old(w), looking, others, clock, windows);
                  var rest := RetireAll(w, looking[i..], others[i..], clock, windows);
                  all.0 == rest.0 && all.1 == completed + rest.1
      {
        RetireAllStep(w, looking, others, clock, windows, i);
        w := others[i](w);
        var done := RetireOne(looking[i], clock, windows);
        if done { completed := completed + 1; }
      }
    }

    /** `run_cleanup_once` while nothing else commits: what is left of the locks is live. */
    method RunCleanupOnce(rows: seq<Sid>, clock: Clock, windows: Windows, stale: Session -> bool)
      returns (expired: nat, completed: nat)
      requires ActiveSelection(w, rows)
      modifies this
      ensures forall l :: l in w.locks ==> l in old(w).locks && Kept(l, w, clock.now, windows, stale)
      ensures forall sid :: !Silent(w, sid, clock.now, windows)
      ensures w.sessions.Keys == old(w).sessions.Keys
      ensures forall l :: l in old(w).locks ==>
                (l in w.locks <==> !Due(l, old(w), clock.now, stale)
                                   && (l.sid in w.sessions ==> w.sessions[l.sid] == old(w).sessions[l.sid]))
      ensures forall sid :: sid in w.sessions && w.sessions[sid] != old(w).sessions[sid] ==>
                && old(w).sessions[sid].status == Active
                && w.sessions[sid].status == Completed && w.sessions[sid].autoCompleted
    {
      ghost var at;
      expired, at := CheckExpiredLocks(clock.now, stale);
      KeptOnes(old(w).locks, w.locks, at, l => Due(l, old(w), clock.now, stale));
      var swept := w;
      var worlds := seq(|rows|, k => swept);
      var others := seq(|rows|, k => (x: World) => x);
      ghost var candidates;
      completed, candidates := AutoComplete(rows, worlds, others, clock, windows);
      forall sid ensures !Silent(w, sid, clock.now, windows) {
        NobodySilent(swept, rows, worlds, candidates, others, clock, windows, sid);
      }
      QuietSweep(swept, candidates, others, clock, windows);
      LocksAreKept(old(w), swept, w, clock.now, windows, stale);
    }
  }

  /** Nobody else commits anything. */
  ghost predicate Quiet(others: seq<World -> World>) {
    forall k, x :: 0 <= k < |others| ==> others[k](x) == x
  }

  predicate AllAre(worlds: seq<World>, w: World) {
    forall k :: 0 <= k < |worlds| ==> worlds[k] == w
  }

  lemma LocksAreKept(start: World, swept: World, end: World, now: int, windows: Windows, stale: Session -> bool)
    requires swept == start.(locks := swept.locks)
    requires forall l :: l in swept.locks <==> l in start.locks && !Due(l, start, now, stale)
    requires OnlyRetired(swept, end) && forall sid :: !Silent(end, sid, now, windows)
    ensures forall l :: l in end.locks ==> l in start.locks && Kept(l, end, now, windows, stale)
  {
    forall l | l in end.locks ensures l in start.locks && Kept(l, end, now, windows, stale) {
      assert l in swept.locks && !Silent(end, l.sid, now, windows);
      LockIsKept(start, end, l, now, windows, stale);
    }
  }

  /** From `w` to `end` active sessions only retire, and just those that do lose their locks. */
  ghost predicate OnlyRetired(w: World, end: World) {
    && end.sessions.Keys == w.sessions.Keys
    && (forall sid :: sid in w.sessions && end.sessions[sid] != w.sessions[sid] ==>
          && w.sessions[sid].status == Active && end.sessions[sid].status == Completed
          && end.sessions[sid].autoCompleted)
    && (forall l :: l in end.locks <==>
          l in w.locks && (l.sid in w.sessions ==> end.sessions[l.sid] == w.sessions[l.sid]))
  }

  lemma NobodySilent(w: World, rows: seq<Sid>, worlds: seq<World>, candidates: seq<Sid>, others: seq<World -> World>,
                     clock: Clock, windows: Windows, sid: Sid)
    requires ActiveSelection(w, rows) && |worlds| == |rows|
    requires forall k :: 0 <= k < |rows| ==> rows[k] in w.sessions
    requires AllAre(worlds, w)
    requires candidates == Looking(w.sessions, rows, worlds, clock.now, windows)
    requires |candidates| <= |others| && Quiet(others)
    ensures !Silent(RetireAll(w, candidates, others, clock, windows).0, sid, clock.now, windows)
  {
    QuietSweep(w, candidates, others, clock, windows);
    SilentWasCandidate(w, rows, worlds, sid, clock.now, windows);
    RetiresTheSilent(RetireAll(w, candidates, others, clock, windows).0, sid, clock.now, windows);
  }

  lemma SilentWasCandidate(w: World, rows: seq<Sid>, worlds: seq<World>, sid: Sid, now: int, windows: Windows)
    requires ActiveSelection(w, rows) && |worlds| == |rows|
    requires forall k :: 0 <= k < |rows| ==> rows[k] in w.sessions
    requires AllAre(worlds, w)
    ensures Retires(w, sid, now, windows) ==> sid in Looking(w.sessions, rows, worlds, now, windows)
  {
    LookingFinds(w.sessions, rows, worlds, now, windows);
    if Retires(w, sid, now, windows) {
      assert sid in rows;
      var k :| 0 <= k < |rows| && rows[k] == sid;
      assert Looked(w.sessions, rows, worlds, now, windows, k);
    }
  }

  lemma LockIsKept(start: World, end: World, l: Lock, now: int, windows: Windows, stale: Session -> bool)
    requires l in end.locks && !Due(l, start, now, stale) && !Silent(end, l.sid, now, windows)
    requires end.sessions.Keys == start.sessions.Keys
    requires l.sid in start.sessions ==> end.sessions[l.sid] == start.sessions[l.sid]
    ensures Kept(l, end, now, windows, stale)
  {
  }

  /** An expired lock that a cleanup keeps: exclusive, of an owner still at work or freshly paused. */
  ghost predicate Kept(l: Lock, w: World, now: int, windows: Windows, stale: Session -> bool) {
    l.expiresAt <= now && l.sid in w.sessions ==>
      && l.exclusive
      && (w.sessions[l.sid].status == Active || (w.sessions[l.sid].status == Paused && !stale(w.sessions[l.sid])))
      && (w.sessions[l.sid].status == Active ==>
            exists at :: ActedAt(w.sessions[l.sid], w, l.sid, at) && !Past(w.sessions[l.sid], at, now, windows))
  }

  predicate Looked(snapshot: map<Sid, Session>, rows: seq<Sid>, worlds: seq<World>, now: int, windows: Windows, k: int)
    requires |rows| == |worlds| && forall k :: 0 <= k < |rows| ==> rows[k] in snapshot
  {
    0 <= k < |rows| && Idle(snapshot[rows[k]], worlds[k], rows[k], now, windows)
  }

  lemma {:induction false} LookingFinds(snapshot: map<Sid, Session>, rows: seq<Sid>, worlds: seq<World>, now: int,
                                        windows: Windows)
    requires |rows| == |worlds| && forall k :: 0 <= k < |rows| ==> rows[k] in snapshot
    ensures forall k :: Looked(snapshot, rows, worlds, now, windows, k) ==>
        rows[k] in Looking(snapshot, rows, worlds, now, windows)
  {
    if rows != [] {
      var n := |rows| - 1;
      LookingFinds(snapshot, rows[..n], worlds[..n], now, windows);
      forall k | Looked(snapshot, rows, worlds, now, windows, k)
        ensures rows[k] in Looking(snapshot, rows, worlds, now, windows)
      {
        if k < n {
          assert Looked(snapshot, rows[..n], worlds[..n], now, windows, k);
          assert rows[..n][k] == rows[k];
        }
      }
    }
  }

  /** Retiring one session is no activity of another. */
  lemma RetireSparesOthers(w: World, sid: Sid, other: Sid, clock: Clock, windows: Windows)
    requires other != sid
    ensures Retires(Retire(w, sid, clock, windows), other, clock.now, windows) <==>
        Retires(w, other, clock.now, windows)
  {
    var after := Retire(w, sid, clock, windows);
    RetiresTheSilent(w, other, clock.now, windows);
    RetiresTheSilent(after, other, clock.now, windows);
    LocksSplit(w.locks, sid);
    forall at ensures Did(LockStamps(after.locks), other, at) <==> Did(LockStamps(w.locks), other, at) {
      LockStampsOf(w.locks, other, at);
      LockStampsOf(after.locks, other, at);
    }
    if other in w.sessions {
      assert forall at :: ActedAt(after.sessions[other], after, other, at) <==>
          ActedAt(w.sessions[other], w, other, at);
    }
  }

  lemma LockStampsOf(locks: seq<Lock>, sid: Sid, at: int)
    ensures Did(LockStamps(locks), sid, at) <==> exists l :: l in locks && l.sid == sid && l.createdAt == at
  {
    if Did(LockStamps(locks), sid, at) {
      var k :| 0 <= k < |locks| && LockStamps(locks)[k] == Stamp(sid, at);
      assert locks[k] in locks;
    }
    if l :| l in locks && l.sid == sid && l.createdAt == at {
      var k :| 0 <= k < |locks| && locks[k] == l;
      assert LockStamps(locks)[k] == Stamp(sid, at);
    }
  }

  /** A pass 2 nobody interrupts retires every candidate that is silent and touches no other session. */
  lemma {:induction false} QuietSweep(w: World, candidates: seq<Sid>, others: seq<World -> World>, clock: Clock,
                                      windows: Windows)
    requires |candidates| <= |others| && Quiet(others)
    ensures var end := RetireAll(w, candidates, others, clock, windows).0;
            && OnlyRetired(w, end)
            && (forall sid :: sid in w.sessions && end.sessions[sid] != w.sessions[sid] ==>
               Silent(w, sid, clock.now, windows) && sid in candidates)
            && (forall sid :: Retires(end, sid, clock.now, windows) ==>
               Retires(w, sid, clock.now, windows) && sid !in candidates)
    decreases |candidates|
  {
    if candidates != [] {
      var sid := candidates[0];
      var next := Retire(w, sid, clock, windows);
      LocksSplit(w.locks, sid);
      QuietSweep(next, candidates[1..], others[1..], clock, windows);
      forall other
        ensures other != sid ==> (Retires(next, other, clock.now, windows) <==> Retires(w, other, clock.now, windows))
        ensures Retires(w, other, clock.now, windows) <==> Silent(w, other, clock.now, windows)
        ensures Retires(next, other, clock.now, windows) <==> Silent(next, other, clock.now, windows)
      {
        if other != sid { RetireSparesOthers(w, sid, other, clock, windows); }
        RetiresTheSilent(w, other, clock.now, windows);
        RetiresTheSilent(next, other, clock.now, windows);
      }
    }
  }
}
