/** `ats safe-restart`, safe_restart.py: acquire, drain, re-check, restart, verify, report. */
module SafeRestarts {
  import opened Wrappers
  import opened Heartbeats

  const EXIT_OK := 0
  const EXIT_FAILED := 1
  const EXIT_BUSY := 2
  const EXIT_UNAVAILABLE := 3
  const EXIT_LOCAL := 4
  const EXIT_UNRECORDED := 5
  const EXIT_INTERRUPTED := 6

  datatype Outcome = Success | Failed | TimedOut | Aborted

  /** What the outcome report comes back with; a 200 may still carry an unreadable body. */
  datatype Receipt = PostRaises(e: Exn) | Answered(code: int, readable: bool)

  /** One effect on the outside world, with its answer. */
  datatype Event =
    | Acquire(withSession: bool, code: int)
    | ReadPid(pid: int)
    | Drain(code: int)
    | Release
    | CheckBeat(lost: bool)
    | Recheck(holds: bool)
    | Restart(rc: Option<int>)
    | Look(active: bool, pid: int)
    | Health(code: int)
    | Complete(outcome: Outcome, oldPid: int, newPid: Option<int>, receipt: Receipt)

  // ---------------------------------------------------------------- the protocol

  /** How the authorization has been proved again since the drain cleared. */
  datatype Proof = Unproven | BeatHeld | Reproven

  datatype Phase =
    | Start
    | Retry
    | Refused(code: int)
    | Granted
    | Released
    | Known(oldPid: int)
    | Cleared(oldPid: int, proof: Proof)
    | Issued(oldPid: int, rcZero: bool, newPid: Option<int>, up: bool, healthy: bool)
    | Posted(oldPid: int, issued: bool, newPid: Option<int>, claimed: bool, won: bool)

  predicate Ok2xx(code: int) {
    200 <= code < 300
  }

  predicate SuccessAccepted(e: Event) {
    e.Complete? && e.outcome == Success && e.receipt == Answered(200, true)
  }

  /** Whether `outcome` may be posted in this phase. `health`: the policy names a health URL. */
  predicate MayPost(p: Phase, outcome: Outcome, oldPid: int, newPid: Option<int>, health: bool) {
    match p
    case Cleared(pid, _) => outcome == Aborted && oldPid == pid
    case Issued(pid, rcZero, seen, up, healthy) =>
      && oldPid == pid && newPid == seen && outcome != Aborted
      && (outcome == Success ==> rcZero && up && (health ==> healthy))
    case Posted(pid, issued, seen, _, won) =>
      !won && oldPid == pid && newPid == seen && outcome == if issued then Failed else Aborted
    case _ => false
  }

  /** A success has been posted. */
  predicate Claimed(p: Phase) {
    p.Posted? && p.claimed
  }

  /** The protocol: the phase an effect leads to, or None where it may not happen. */
  function Step(p: Phase, e: Event, health: bool): Option<Phase> {
    match e
    case Acquire(withSession, code) =>
      if p != Start && !(p == Retry && !withSession) then None
      else Some(if code == 201 then Granted else if code == 404 && withSession then Retry else Refused(code))
    case ReadPid(pid) => if p != Granted then None else Some(Known(pid))
    case Drain(code) =>
      if !p.Known? then None else Some(if code == 200 then Cleared(p.oldPid, Unproven) else Refused(code))
    case Release => if p == Granted || p.Known? then Some(Released) else None
    case CheckBeat(lost) => if p.Cleared? then Some(p.(proof := if lost then Unproven else BeatHeld)) else None
    case Recheck(holds) =>
      if p.Cleared? && p.proof == BeatHeld then Some(p.(proof := if holds then Reproven else Unproven)) else None
    case Restart(rc) =>
      if p.Cleared? && p.proof == Reproven then Some(Issued(p.oldPid, rc == Some(0), None, false, false)) else None
    case Look(active, pid) =>
      if !p.Issued? || !p.rcZero then None
      else
        var up := active && pid != 0 && pid != p.oldPid;
        Some(Issued(p.oldPid, true, if up then Some(pid) else p.newPid, up, false))
    case Health(code) => if p.Issued? && p.up then Some(p.(healthy := Ok2xx(code))) else None
    case Complete(outcome, oldPid, newPid, _) =>
      if MayPost(p, outcome, oldPid, newPid, health)
      then Some(Posted(oldPid, outcome != Aborted, newPid, outcome == Success || Claimed(p), SuccessAccepted(e)))
      else None
  }

  /** The phase a trace ends in; None for a trace that breaks the protocol. */
  function After(trace: seq<Event>, health: bool): Option<Phase> {
    if trace == [] then Some(Start)
    else
      var before := After(trace[..|trace| - 1], health);
      if before.None? then None else Step(before.value, trace[|trace| - 1], health)
  }

  predicate Legal(trace: seq<Event>, health: bool) {
    After(trace, health).Some?
  }

  // ---------------------------------------------------------------- the answers

  datatype Policy = Policy(leaseId: string, drainRequired: bool, urls: seq<string>, health: bool, verifyTicks: nat)

  datatype Acquired = AcquireRaises(e: Exn) | AcquireReply(code: int)

  datatype Ran = RunRaises(e: Exn) | RunTimeout | Rc(rc: int)

  /** `unit_state`'s answer. */
  datatype Seen = SeenRaises(e: Exn) | Seen(active: bool, failed: bool, pid: int)

  datatype Healthy = HealthRaises(e: Exn) | HealthReply(code: int)

  /** Everything the outside world answers, chosen by nobody the wrapper can trust. `gap` raises between
      the cleared drain and the `try` that reports whatever follows it. `ticks(i)` is how
      much longer than its half-second sleep the i-th verification round takes; `sleeps(i)` raises
      when a signal arrives during that sleep. */
  datatype Script = Script(first: Acquired, second: Acquired, pid: Seen, drain: Acquired, release: Option<Exn>,
                           gap: Option<Exn>, renewals: seq<Answer>, lease: Answer, snaps: string -> Answer, ran: Ran,
                           looks: nat -> Seen, healths: nat -> Healthy, sleeps: nat -> Option<Exn>, ticks: nat -> nat,
                           report: Receipt, reportAgain: Receipt)

  /** One call of the command: its answers, the unit's policy, and whether it names a session. */
  datatype Call = Call(s: Script, policy: Policy, session: bool)

  /** The answer the lease request ends with: a 404 on the session is asked again without it. */
  function LeaseAnswer(c: Call): Acquired {
    if c.session && c.s.first == AcquireReply(404) then c.s.second else c.s.first
  }

  /** No renewal the thread heard was refused, and none lost a drain the unit needs. */
  predicate HeartbeatHeld(c: Call) {
    NothingLost(c.s.renewals, c.policy.drainRequired)
  }

  /** The lease and, where a drain is required, every service proves the authorization. */
  predicate RecheckProven(c: Call) {
    && LeaseProven(c.s.lease)
    && (c.policy.drainRequired ==>
          c.policy.urls != [] && forall k :: 0 <= k < |c.policy.urls| ==>
            DrainProven(c.s.snaps(c.policy.urls[k]), c.policy.leaseId))
  }

  /** The lease was granted, the process id read and the drain cleared. */
  predicate DrainCleared(c: Call) {
    LeaseAnswer(c) == AcquireReply(201) && c.s.pid.Seen? && c.s.drain == AcquireReply(200)
  }

  /** What must have been answered for the restart to be issued. */
  predicate RestartGranted(c: Call) {
    DrainCleared(c) && c.s.gap.None? && HeartbeatHeld(c) && RecheckProven(c)
  }

  /** A granted lease is given back: the process id cannot be read, or the drain cannot be asked for. */
  predicate BacksOut(c: Call) {
    LeaseAnswer(c) == AcquireReply(201)
    && if c.s.pid.Seen? then c.s.drain == AcquireRaises(HttpError) else IsException(c.s.pid.e)
  }

  /** The i-th look saw the unit active under a nonzero process id other than the one before. */
  predicate UpAt(c: Call, i: nat) {
    var seen := c.s.looks(i);
    seen.Seen? && seen.active && seen.pid != 0 && c.s.pid.Seen? && seen.pid != c.s.pid.pid
  }

  predicate HealthyAt(c: Call, i: nat) {
    c.policy.health ==> c.s.healths(i).HealthReply? && Ok2xx(c.s.healths(i).code)
  }

  /** The i-th round settles nothing before its sleep. */
  predicate Quiet(c: Call, i: nat) {
    var seen := c.s.looks(i);
    && (seen.SeenRaises? ==> IsException(seen.e))
    && (seen.Seen? && seen.failed ==> seen.active)
    && (UpAt(c, i) ==> c.policy.health && match c.s.healths(i)
                                         case HealthRaises(e) => e == HttpError
                                         case HealthReply(code) => !Ok2xx(code))
  }

  /** The i-th round neither ends the verification nor raises out of it. */
  predicate Unsettled(c: Call, i: nat) {
    Quiet(c, i) && c.s.sleeps(i).None?
  }

  /** What the i-th round says, if it says anything: the unit is up and healthy, it has failed, or the look,
      the health check or the sleep raises what the loop does not catch. */
  predicate RoundSays(c: Call, i: nat, x: Result<Outcome, Exn>) {
    var seen := c.s.looks(i);
    match x
    case Ok(Success) => UpAt(c, i) && HealthyAt(c, i)
    case Ok(Failed) => seen.Seen? && seen.failed && !seen.active
    case Err(e) =>
      || (seen == SeenRaises(e) && (e == Interrupt || e == OtherBase))
      || (UpAt(c, i) && c.policy.health && c.s.healths(i) == HealthRaises(e) && e != HttpError)
      || (Quiet(c, i) && c.s.sleeps(i) == Some(e))
    case _ => false
  }

  /** How long the first `i` rounds take. */
  function Elapsed(c: Call, i: nat): nat {
    if i == 0 then 0 else Elapsed(c, i - 1) + 1 + c.s.ticks(i - 1)
  }

  /** Round `i` is reached in time and sees the unit up and healthy. */
  ghost predicate VerifiedAt(c: Call, i: nat) {
    && UpAt(c, i) && HealthyAt(c, i) && Elapsed(c, i) < c.policy.verifyTicks
    && forall j: nat :: j < i ==> Unsettled(c, j)
  }

  /** Round `i` is reached in time, says nothing but `x`, and no round before it said anything. */
  ghost predicate SettlesAt(c: Call, i: nat, x: Result<Outcome, Exn>) {
    RoundSays(c, i, x) && Elapsed(c, i) < c.policy.verifyTicks && forall j: nat :: j < i ==> Unsettled(c, j)
  }

  /** The time is out after `n` rounds that said nothing. */
  ghost predicate RunsOut(c: Call, n: nat) {
    Elapsed(c, n) >= c.policy.verifyTicks && forall j: nat :: j < n ==> Unsettled(c, j)
  }

  /** Verification ends by the first round that says something, and times out if none does in time. */
  ghost predicate VerifyEnds(c: Call, x: Result<Outcome, Exn>) {
    if x == Ok(TimedOut) then exists n: nat :: RunsOut(c, n) else exists i: nat :: SettlesAt(c, i, x)
  }

  /** The restart and its verification. */
  ghost predicate IssueEnds(c: Call, x: Result<Outcome, Exn>) {
    match c.s.ran
    case RunRaises(e) => x == Err(e)
    case RunTimeout => x == Ok(TimedOut)
    case Rc(rc) => if rc == 0 then VerifyEnds(c, x) else x == Ok(Failed)
  }

  ghost predicate Breaks(c: Call, e: Exn) {
    CheckBreaks(c.policy.leaseId, c.policy.drainRequired, c.policy.urls, c.s.lease, c.s.snaps, e)
  }

  /** The restart returned 0 and verification saw the new process. */
  ghost predicate RestartVerified(c: Call) {
    c.s.ran == Rc(0) && exists i: nat :: VerifiedAt(c, i)
  }

  /** An event of the trace is what was answered. */
  ghost predicate Answers(e: Event, c: Call) {
    match e
    case Acquire(withSession, code) =>
      if withSession then c.session && c.s.first == AcquireReply(code)
      else if c.session then c.s.first == AcquireReply(404) && c.s.second == AcquireReply(code)
      else c.s.first == AcquireReply(code)
    case ReadPid(pid) => c.s.pid.Seen? && c.s.pid.pid == pid
    case Drain(code) => c.s.drain == AcquireReply(code)
    case Release => true
    case CheckBeat(lost) => lost <==> !HeartbeatHeld(c)
    case Recheck(holds) => holds <==> RecheckProven(c)
    case Restart(rc) => rc == if c.s.ran.Rc? then Some(c.s.ran.rc) else None
    case Look(active, pid) => exists i :: LookTells(c.s.looks(i), active, pid)
    case Health(code) => exists i :: c.s.healths(i) == HealthReply(code)
    case Complete(_, oldPid, _, receipt) =>
      c.s.pid.Seen? && c.s.pid.pid == oldPid && (receipt == c.s.report || receipt == c.s.reportAgain)
  }

  /** A look that could not be read counts as inactive under no process. */
  predicate LookTells(seen: Seen, active: bool, pid: int) {
    match seen
    case SeenRaises(_) => !active && pid == 0
    case Seen(a, _, p) => active == a && pid == p
  }

  /** A legal trace of what was answered, and the phase it ends in. */
  ghost predicate In(trace: seq<Event>, c: Call, p: Phase) {
    After(trace, c.policy.health) == Some(p) && forall k :: 0 <= k < |trace| ==> Answers(trace[k], c)
  }

  /** The next effect of the procedure. */
  method Emit(trace0: seq<Event>, e: Event, c: Call, ghost p: Phase) returns (trace: seq<Event>)
    requires In(trace0, c, p) && Step(p, e, c.policy.health).Some? && Answers(e, c)
    ensures trace == trace0 + [e] && In(trace, c, Step(p, e, c.policy.health).value)
  {
    trace := trace0 + [e];
    assert trace[..|trace0|] == trace0;
  }

  /** The outcomes a trace posts, in order; a post that fails is among them. */
  function Outcomes(trace: seq<Event>): seq<Outcome> {
    if trace == [] then []
    else
      var last := trace[|trace| - 1];
      Outcomes(trace[..|trace| - 1]) + (if last.Complete? then [last.outcome] else [])
  }

  lemma OutcomesSnoc(trace: seq<Event>, e: Event)
    ensures Outcomes(trace + [e]) == Outcomes(trace) + (if e.Complete? then [e.outcome] else [])
  {
    assert (trace + [e])[..|trace|] == trace;
  }

  lemma {:induction false} NothingPosted(trace: seq<Event>, health: bool)
    requires Legal(trace, health) && !After(trace, health).value.Posted?
    ensures Outcomes(trace) == []
  {
    if trace == [] {
    } else {
      NothingPosted(trace[..|trace| - 1], health);
    }
  }

  // ---------------------------------------------------------------- how the command ends

  /** Nothing was reported yet when `e` was raised: `outcome` is, and unless that raises, `code` is the exit
      of an exception, 6 that of a signal, and anything else is raised on. */
  predicate Handled(c: Call, e: Exn, code: int, r: Exit) {
    match c.s.reportAgain
    case PostRaises(again) => if again != HttpError then r == Escapes(again) else Leaves(e, code, r)
    case Answered(200, false) => r == Escapes(Other)
    case _ => Leaves(e, code, r)
  }

  predicate Leaves(e: Exn, code: int, r: Exit) {
    r == match e case Interrupt => Exit(6) case OtherBase => Escapes(OtherBase) case _ => Exit(code)
  }

  /** No restart was issued: "aborted" is posted. */
  ghost predicate AbortEnds(c: Call, r: Exit, said: seq<Outcome>) {
    said == [Aborted]
    && if HeartbeatHeld(c) && exists e :: Breaks(c, e) then exists e :: Breaks(c, e) && Handled(c, e, 4, r)
       else Handled(c, HttpError, 3, r)
  }

  /** The restart was issued, and ended in `x`: its outcome is posted, or "failed" where it raised or its
      report did. */
  predicate ReportEnds(c: Call, x: Result<Outcome, Exn>, r: Exit, said: seq<Outcome>) {
    match x
    case Err(e) => said == [Failed] && Handled(c, e, 1, r)
    case Ok(outcome) =>
      match c.s.report
      case PostRaises(HttpError) => said == [outcome] && r == Exit(5)
      case PostRaises(e) => said == [outcome, Failed] && Handled(c, e, 1, r)
      case Answered(code, readable) =>
        && said == [outcome]
        && r == Exit(if code != 200 then 5 else if readable && outcome == Success then 0 else 1)
  }

  ghost predicate AuthorizedEnds(c: Call, r: Exit, said: seq<Outcome>) {
    if HeartbeatHeld(c) && RecheckProven(c) then exists x :: IssueEnds(c, x) && ReportEnds(c, x, r, said)
    else AbortEnds(c, r, said)
  }

  /** A granted lease is given back, and the exit is `code` unless that raises. */
  predicate GivenBack(c: Call, code: int, r: Exit) {
    r == if c.s.release.None? || c.s.release == Some(HttpError) then Exit(code) else Escapes(c.s.release.value)
  }

  /** The server said no: 2 if the unit is busy, 3 otherwise. */
  predicate Denied(code: int, r: Exit) {
    r == Exit(if code == 409 then 2 else 3)
  }

  /** Every way the command ends, by what was answered: its exit, and the outcomes it posts. */
  ghost predicate CommandEnds(c: Call, r: Exit, said: seq<Outcome>) {
    if DrainCleared(c) && c.s.gap.None? then AuthorizedEnds(c, r, said)
    else
      && said == []
      && match LeaseAnswer(c)
         case AcquireRaises(e) => r == (if e == HttpError then Exit(3) else Escapes(e))
         case AcquireReply(code) =>
           if code != 201 then Denied(code, r)
           else match c.s.pid
                case SeenRaises(e) => if e == Interrupt || e == OtherBase then r == Escapes(e) else GivenBack(c, 4, r)
                case Seen(_, _, _) =>
                  match c.s.drain
                  case AcquireRaises(e) => if e == HttpError then GivenBack(c, 3, r) else r == Escapes(e)
                  case AcquireReply(status) =>
                    if status != 200 then Denied(status, r) else c.s.gap.Some? && r == Escapes(c.s.gap.value)
  }

  // ---------------------------------------------------------------- the procedure

  /** Why the `try` was left by an exception. */
  datatype Cause = LeaseLost | Raised(e: Exn)

  datatype Exit = Exit(code: int) | Escapes(e: Exn)

  function RefusalExit(code: int): int {
    if code == 409 then EXIT_BUSY else EXIT_UNAVAILABLE
  }

  /** `report`: the posted outcome, and the code it returns unless it raises. */
  function Reported(outcome: Outcome, receipt: Receipt): Result<int, Exn> {
    match receipt
    case PostRaises(e) => if e == HttpError then Ok(EXIT_UNRECORDED) else Err(e)
    case Answered(code, readable) =>
      if code != 200 then Ok(EXIT_UNRECORDED)
      else if !readable then Err(Other)
      else Ok(if outcome == Success then EXIT_OK else EXIT_FAILED)
  }

  /** The phases between the restart and its report, of this call. */
  predicate Verifying(q: Phase, c: Call) {
    q.Issued? && q.rcZero && c.s.pid.Seen? && q.oldPid == c.s.pid.pid
  }

  /** One round of the verify loop: None while the unit is not settled. */
  method LookOnce(c: Call, i: nat, p: Phase, trace0: seq<Event>)
    returns (r: Result<Option<Outcome>, Exn>, q: Phase, trace: seq<Event>)
    requires In(trace0, c, p) && Verifying(p, c)
    ensures In(trace, c, q) && Verifying(q, c)
    ensures r == Ok(Some(Success)) <==> UpAt(c, i) && HealthyAt(c, i)
    ensures r == Ok(Some(Success)) ==> q.up && q.newPid == Some(c.s.looks(i).pid) && (c.policy.health ==> q.healthy)
    ensures r.Ok? && r.value.Some? ==> r.value == Some(Success) || r.value == Some(Failed)
    ensures r == Ok(None) <==> Quiet(c, i)
    ensures r != Ok(None) ==> RoundSays(c, i, if r.Ok? then Ok(r.value.value) else Err(r.error))
  {
    q, trace := p, trace0;
    var seen, h := c.s.looks(i), c.s.healths(i);
    if seen.SeenRaises? && !IsException(seen.e) { return Err(seen.e), q, trace; }
    var active, pid := seen.Seen? && seen.active, if seen.Seen? then seen.pid else 0;
    assert LookTells(c.s.looks(i), active, pid);
    trace := Emit(trace, Look(active, pid), c, q);
    q := Step(q, Look(active, pid), c.policy.health).value;
    if seen.Seen? && seen.failed && !active { return Ok(Some(Failed)), q, trace; }
    if !active || pid == 0 || pid == q.oldPid { return Ok(None), q, trace; }
    if !c.policy.health { return Ok(Some(Success)), q, trace; }
    if h.HealthRaises? {
      return if h.e == HttpError then Ok(None) else Err(h.e), q, trace;
    }
    assert c.s.healths(i) == HealthReply(h.code);
    trace := Emit(trace, Health(h.code), c, q);
    q := q.(healthy := Ok2xx(h.code));
    return Ok(if Ok2xx(h.code) then Some(Success) else None), q, trace;
  }

  /** A round says at most one thing, and an unsettled one nothing. */
  lemma RoundSaysOne(c: Call, i: nat, x: Result<Outcome, Exn>, y: Result<Outcome, Exn>)
    requires RoundSays(c, i, x)
    ensures !Unsettled(c, i) && (RoundSays(c, i, y) ==> x == y)
  {
  }

  lemma ElapsedGrows(c: Call, i: nat, j: nat)
    requires i <= j
    ensures Elapsed(c, i) <= Elapsed(c, j)
  {
    if i < j { ElapsedGrows(c, i, j - 1); }
  }

  /** The answers determine how verification ends. */
  lemma VerifyEndsOnce(c: Call, x: Result<Outcome, Exn>, y: Result<Outcome, Exn>)
    requires VerifyEnds(c, x) && VerifyEnds(c, y)
    ensures x == y
  {
    if x == Ok(TimedOut) && y != Ok(TimedOut) {
      OutOrSettled(c, y);
    } else if y == Ok(TimedOut) && x != Ok(TimedOut) {
      OutOrSettled(c, x);
    } else if x != Ok(TimedOut) {
      var i: nat :| SettlesAt(c, i, x);
      var j: nat :| SettlesAt(c, j, y);
      RoundSaysOne(c, i, x, y);
      RoundSaysOne(c, j, y, x);
    }
  }

  lemma OutOrSettled(c: Call, x: Result<Outcome, Exn>)
    requires x != Ok(TimedOut) && VerifyEnds(c, x)
    ensures !VerifyEnds(c, Ok(TimedOut))
  {
    var i: nat :| SettlesAt(c, i, x);
    RoundSaysOne(c, i, x, x);
    forall n: nat ensures !RunsOut(c, n) {
      if n <= i { ElapsedGrows(c, n, i); }
    }
  }

  lemma VerifiedIsSettled(c: Call)
    ensures VerifyEnds(c, Ok(Success)) <==> exists i: nat :: VerifiedAt(c, i)
  {
    forall i: nat ensures VerifiedAt(c, i) <==> SettlesAt(c, i, Ok(Success)) {}
  }

  /** The verify loop: looks at the unit until it is up as a new process, has failed, or time is out. */
  method Verify(c: Call, p: Phase, trace0: seq<Event>)
    returns (r: Result<Outcome, Exn>, q: Phase, trace: seq<Event>)
    requires In(trace0, c, p) && Verifying(p, c)
    ensures In(trace, c, q) && Verifying(q, c)
    ensures VerifyEnds(c, r)
    ensures r == Ok(Success) <==> exists i: nat :: VerifiedAt(c, i)
    ensures r == Ok(Success) ==> q.up && (c.policy.health ==> q.healthy)
    ensures r == Ok(Success) ==> exists i: nat :: VerifiedAt(c, i) && q.newPid == Some(c.s.looks(i).pid)
    ensures r.Ok? ==> r.value != Aborted
  {
    q, trace := p, trace0;
    var i: nat, elapsed := 0, 0;
    while elapsed < c.policy.verifyTicks
      invariant In(trace, c, q) && Verifying(q, c)
      invariant elapsed == Elapsed(c, i) && forall j: nat :: j < i ==> Unsettled(c, j)
      decreases c.policy.verifyTicks - elapsed
    {
      var settled;
      settled, q, trace := LookOnce(c, i, q, trace);
      if settled.Err? || settled.value.Some? || c.s.sleeps(i).Some? {
        r := if settled.Err? then Err(settled.error) else if settled.value.Some? then Ok(settled.value.value)
             else Err(c.s.sleeps(i).value);
        assert SettlesAt(c, i, r);
        EndIsSuccess(c, r);
        assert r == Ok(Success) ==> VerifiedAt(c, i);
        return r, q, trace;
      }
      elapsed := elapsed + 1 + c.s.ticks(i);
      i := i + 1;
    }
    assert RunsOut(c, i);
    EndIsSuccess(c, Ok(TimedOut));
    return Ok(TimedOut), q, trace;
  }

  lemma EndIsSuccess(c: Call, r: Result<Outcome, Exn>)
    requires VerifyEnds(c, r)
    ensures r == Ok(Success) <==> exists i: nat :: VerifiedAt(c, i)
  {
    VerifiedIsSettled(c);
    if exists i: nat :: VerifiedAt(c, i) { VerifyEndsOnce(c, r, Ok(Success)); }
  }

  /** The last checks before issuing: the heartbeat and the re-check. */
  method Reprove(c: Call, trace0: seq<Event>)
    returns (r: Result<(), Cause>, q: Phase, trace: seq<Event>)
    requires c.s.pid.Seen? && In(trace0, c, Cleared(c.s.pid.pid, Unproven))
    ensures In(trace, c, q) && q.Cleared? && q.oldPid == c.s.pid.pid
    ensures r.Ok? <==> HeartbeatHeld(c) && RecheckProven(c)
    ensures r.Ok? ==> q.proof == Reproven
    ensures forall e :: r == Err(Raised(e)) <==> HeartbeatHeld(c) && Breaks(c, e)
  {
    var oldPid := c.s.pid.pid;
    var beat := new Heartbeat(c.policy.drainRequired);
    beat.Beat(c.s.renewals);
    var lost := beat.Lost();
    LostIsHeard(c.s.renewals, c.policy.drainRequired);
    trace := Emit(trace0, CheckBeat(lost), c, Cleared(oldPid, Unproven));
    q := Cleared(oldPid, if lost then Unproven else BeatHeld);
    if lost { return Err(LeaseLost), q, trace; }
    var verdict := PreissueCheck(c.policy.leaseId, c.policy.drainRequired, c.policy.urls, c.s.lease, c.s.snaps);
    if verdict.Breaks? { return Err(Raised(verdict.e)), q, trace; }
    var holds := verdict == Holds;
    trace := Emit(trace, Recheck(holds), c, q);
    q := Cleared(oldPid, if holds then Reproven else Unproven);
    return if holds then Ok(()) else Err(LeaseLost), q, trace;
  }

  /** `systemctl restart`, then verification. */
  method Issue(c: Call, trace0: seq<Event>)
    returns (r: Result<Outcome, Exn>, q: Phase, trace: seq<Event>)
    requires c.s.pid.Seen? && In(trace0, c, Cleared(c.s.pid.pid, Reproven))
    ensures In(trace, c, q) && q.Issued? && q.oldPid == c.s.pid.pid
    ensures IssueEnds(c, r)
    ensures r.Ok? ==> r.value != Aborted
    ensures r == Ok(Success) <==> RestartVerified(c)
    ensures r == Ok(Success) ==> q.rcZero && q.up && (c.policy.health ==> q.healthy)
  {
    var oldPid := c.s.pid.pid;
    var rc := if c.s.ran.Rc? then Some(c.s.ran.rc) else None;
    trace := Emit(trace0, Restart(rc), c, Cleared(oldPid, Reproven));
    q := Issued(oldPid, rc == Some(0), None, false, false);
    if c.s.ran.RunRaises? { return Err(c.s.ran.e), q, trace; }
    if c.s.ran == RunTimeout { return Ok(TimedOut), q, trace; }
    if c.s.ran.rc != 0 { return Ok(Failed), q, trace; }
    r, q, trace := Verify(c, q, trace);
  }

  /** `state["issued"]` */
  predicate WasIssued(q: Phase) {
    q.Issued? || (q.Posted? && q.issued)
  }

  predicate Won(q: Phase) {
    q.Posted? && q.won
  }

  /** What is known of a success report by the receipt it got. */
  ghost predicate SuccessFits(c: Call, r: Result<int, Cause>, reported: bool) {
    RestartVerified(c) && c.s.report.Answered? && c.s.report.code == 200 ==>
      if c.s.report.readable then r == Ok(EXIT_OK) else r == Err(Raised(Other)) && reported
  }

  /** How the body of the outer `try` ends. */
  ghost predicate TryEnds(c: Call, r: Result<int, Cause>, reported: bool, said: seq<Outcome>) {
    if !(HeartbeatHeld(c) && RecheckProven(c)) then
      && said == [] && !reported && r.Err?
      && (forall e :: r == Err(Raised(e)) <==> HeartbeatHeld(c) && Breaks(c, e))
    else
      exists x :: IssueEnds(c, x) && TryReports(c, x, r, reported, said)
  }

  predicate TryReports(c: Call, x: Result<Outcome, Exn>, r: Result<int, Cause>, reported: bool, said: seq<Outcome>) {
    match x
    case Err(e) => said == [] && !reported && r == Err(Raised(e))
    case Ok(outcome) =>
      && said == [outcome] && (reported <==> c.s.report.Answered?)
      && match c.s.report
         case PostRaises(e) => r == (if e == HttpError then Ok(5) else Err(Raised(e)))
         case Answered(code, readable) =>
           r == (if code != 200 then Ok(5) else if !readable then Err(Raised(Other))
                 else Ok(if outcome == Success then 0 else 1))
  }

  /** The body of the outer `try`: from the re-check to the report. */
  method TryBody(c: Call, trace0: seq<Event>)
    returns (r: Result<int, Cause>, reported: bool, q: Phase, trace: seq<Event>)
    requires c.s.pid.Seen? && In(trace0, c, Cleared(c.s.pid.pid, Unproven))
    ensures In(trace, c, q) && (q.Cleared? || q.Issued? || q.Posted?) && q.oldPid == c.s.pid.pid
    ensures WasIssued(q) <==> HeartbeatHeld(c) && RecheckProven(c)
    ensures q.Posted? ==> q.issued
    ensures Claimed(q) ==> WasIssued(q)
    ensures reported ==> q.Posted?
    ensures r.Ok? ==> q.Posted? && (r.value == EXIT_OK <==> q.won)
                      && (r.value == EXIT_OK || r.value == EXIT_FAILED || r.value == EXIT_UNRECORDED)
    ensures r.Err? && q.Posted? ==> !q.won
    ensures r == Err(LeaseLost) ==> q.Cleared?
    ensures WasIssued(q) ==> (Claimed(q) <==> RestartVerified(c)) && SuccessFits(c, r, reported)
    ensures r == Ok(EXIT_OK) ==> RestartVerified(c) && c.s.report == Answered(200, true)
    ensures TryEnds(c, r, reported, Outcomes(trace))
  {
    reported := false;
    var proven;
    proven, q, trace := Reprove(c, trace0);
    NothingPosted(trace, c.policy.health);
    if proven.Err? { return Err(proven.error), reported, q, trace; }
    var ended;
    ended, q, trace := Issue(c, trace);
    NothingPosted(trace, c.policy.health);
    if ended.Err? { return Err(Raised(ended.error)), reported, q, trace; }
    var e := Complete(ended.value, c.s.pid.pid, q.newPid, c.s.report);
    OutcomesSnoc(trace, e);
    trace := Emit(trace, e, c, q);
    q := Posted(c.s.pid.pid, true, q.newPid, ended.value == Success, SuccessAccepted(e));
    reported := c.s.report.Answered?;
    var said := Reported(ended.value, c.s.report);
    r := if said.Ok? then Ok(said.value) else Err(Raised(said.error));
  }

  /** The handler of whatever leaves the body: it reports what was not reported, and chooses the exit. */
  method Handle(c: Call, cause: Cause, reported: bool, p: Phase, trace0: seq<Event>)
    returns (r: Exit, q: Phase, trace: seq<Event>)
    requires c.s.pid.Seen? && In(trace0, c, p)
    requires (p.Cleared? || p.Issued? || (p.Posted? && p.issued && !p.won)) && p.oldPid == c.s.pid.pid
    requires (reported ==> p.Posted?) && (cause == LeaseLost ==> p.Cleared?)
    ensures In(trace, c, q) && q.Posted? && ExitFits(r, q) && r != Exit(EXIT_OK)
    ensures (WasIssued(q) <==> WasIssued(p)) && (Claimed(q) <==> Claimed(p))
    ensures reported ==> Outcomes(trace) == Outcomes(trace0)
    ensures !reported ==> Outcomes(trace) == Outcomes(trace0) + [if WasIssued(p) then Failed else Aborted]
    ensures cause.Raised? ==>
              var code := if WasIssued(p) then 1 else 4;
              if reported then Leaves(cause.e, code, r) else Handled(c, cause.e, code, r)
    ensures cause.LeaseLost? ==> Handled(c, HttpError, 3, r)
  {
    var issued := WasIssued(p);
    q, trace := p, trace0;
    if !reported {
      var outcome := if issued then Failed else Aborted;
      var newPid := if q.Cleared? then None else q.newPid;
      var e := Complete(outcome, c.s.pid.pid, newPid, c.s.reportAgain);
      OutcomesSnoc(trace, e);
      trace := Emit(trace, e, c, q);
      q := Posted(c.s.pid.pid, issued, newPid, Claimed(q), false);
      var again := Reported(outcome, c.s.reportAgain);
      if again.Err? { return Escapes(again.error), q, trace; }
    }
    if cause == Raised(Interrupt) { return Exit(EXIT_INTERRUPTED), q, trace; }
    if cause == LeaseLost { return Exit(EXIT_UNAVAILABLE), q, trace; }
    if IsException(cause.e) { return Exit(if issued then EXIT_FAILED else EXIT_LOCAL), q, trace; }
    return Escapes(cause.e), q, trace;
  }

  /** From authorization on: the body, and the handler that reports whatever it did not. */
  method Authorized(c: Call, trace0: seq<Event>)
    returns (r: Exit, q: Phase, trace: seq<Event>)
    requires c.s.pid.Seen? && In(trace0, c, Cleared(c.s.pid.pid, Unproven))
    ensures In(trace, c, q) && q.Posted?
    ensures ExitFits(r, q)
    ensures WasIssued(q) <==> HeartbeatHeld(c) && RecheckProven(c)
    ensures Claimed(q) <==> WasIssued(q) && RestartVerified(c)
    ensures r == Exit(EXIT_OK) <==> WasIssued(q) && RestartVerified(c) && c.s.report == Answered(200, true)
    ensures WasIssued(q) && RestartVerified(c) && c.s.report == Answered(200, false) ==> r == Exit(EXIT_FAILED)
    ensures AuthorizedEnds(c, r, Outcomes(trace))
  {
    var tried, reported;
    tried, reported, q, trace := TryBody(c, trace0);
    if tried.Ok? { return Exit(tried.value), q, trace; }
    r, q, trace := Handle(c, tried.error, reported, q, trace);
  }

  /** What an exit code tells. */
  predicate ExitFits(r: Exit, q: Phase) {
    && (r == Exit(EXIT_OK) <==> Won(q))
    && (r == Exit(EXIT_FAILED) || r == Exit(EXIT_UNRECORDED) ==> WasIssued(q))
    && (r == Exit(EXIT_BUSY) || r == Exit(EXIT_UNAVAILABLE) || r == Exit(EXIT_LOCAL) ==> !WasIssued(q))
    && (r == Exit(EXIT_BUSY) <==> q == Refused(409))
    && (r == Exit(EXIT_INTERRUPTED) ==> q.Posted?)
    && (r.Exit? ==> EXIT_OK <= r.code <= EXIT_INTERRUPTED)
  }

  /** The lease: asked for again without the session when the server does not know it. */
  method Lease(c: Call) returns (a: Acquired, q: Phase, trace: seq<Event>)
    ensures In(trace, c, q)
    ensures a == LeaseAnswer(c)
    ensures a == AcquireReply(201) <==> q == Granted
    ensures a.AcquireReply? && a.code != 201 <==> q.Refused?
    ensures q.Refused? ==> q.code == a.code
    ensures q == Start || q == Retry || q == Granted || q.Refused?
  {
    a, trace, q := c.s.first, [], Start;
    if a.AcquireReply? {
      trace := Emit(trace, Acquire(c.session, a.code), c, Start);
      q := Step(Start, Acquire(c.session, a.code), c.policy.health).value;
      if a.code == 404 && c.session {
        a := c.s.second;
        if a.AcquireReply? {
          trace := Emit(trace, Acquire(false, a.code), c, Retry);
          q := Step(Retry, Acquire(false, a.code), c.policy.health).value;
        }
      }
    }
  }

  /** How the command ends, by what was answered. */
  ghost predicate Told(c: Call, r: Exit, q: Phase) {
    && !q.Issued? && ExitFits(r, q)
    && (q.Posted? <==> DrainCleared(c) && c.s.gap.None?)
    && (q.Cleared? <==> DrainCleared(c) && c.s.gap.Some?) && (q.Cleared? ==> r == Escapes(c.s.gap.value))
    && (q == Released <==> BacksOut(c))
    && (BacksOut(c) && (c.s.release == None || c.s.release == Some(HttpError)) ==>
          r == Exit(if c.s.pid.Seen? then EXIT_UNAVAILABLE else EXIT_LOCAL))
    && (WasIssued(q) <==> RestartGranted(c))
    && (Claimed(q) <==> RestartGranted(c) && RestartVerified(c))
    && (r == Exit(EXIT_OK) <==> RestartGranted(c) && RestartVerified(c) && c.s.report == Answered(200, true))
    && (RestartGranted(c) && RestartVerified(c) && c.s.report == Answered(200, false) ==> r == Exit(EXIT_FAILED))
  }

  /** What is left when a call before the drain fails: `release`, then the exit. */
  method GiveBack(c: Call, code: int, p: Phase, trace0: seq<Event>) returns (r: Exit, q: Phase, trace: seq<Event>)
    requires In(trace0, c, p) && (p == Granted || p.Known?) && (code == EXIT_UNAVAILABLE || code == EXIT_LOCAL)
    ensures In(trace, c, q) && q == Released && ExitFits(r, q)
    ensures r != Exit(EXIT_OK) && r != Exit(EXIT_FAILED)
    ensures GivenBack(c, code, r) && Outcomes(trace) == []
  {
    trace := Emit(trace0, Release, c, p);
    q := Released;
    NothingPosted(trace, c.policy.health);
    r := if c.s.release.Some? && c.s.release.value != HttpError then Escapes(c.s.release.value) else Exit(code);
  }

  /** Under a granted lease: the process id, the drain, and the rest. */
  method Leased(c: Call, trace0: seq<Event>) returns (r: Exit, q: Phase, trace: seq<Event>)
    requires In(trace0, c, Granted) && LeaseAnswer(c) == AcquireReply(201)
    ensures In(trace, c, q) && Told(c, r, q) && CommandEnds(c, r, Outcomes(trace))
  {
    var s := c.s;
    q, trace := Granted, trace0;
    NothingPosted(trace0, c.policy.health);
    if s.pid.SeenRaises? {
      if !IsException(s.pid.e) { return Escapes(s.pid.e), q, trace; }
      r, q, trace := GiveBack(c, EXIT_LOCAL, q, trace);
      return;
    }
    trace := Emit(trace, ReadPid(s.pid.pid), c, q);
    q := Known(s.pid.pid);
    NothingPosted(trace, c.policy.health);
    if s.drain.AcquireRaises? {
      if s.drain.e != HttpError { return Escapes(s.drain.e), q, trace; }
      r, q, trace := GiveBack(c, EXIT_UNAVAILABLE, q, trace);
      return;
    }
    trace := Emit(trace, Drain(s.drain.code), c, q);
    NothingPosted(trace, c.policy.health);
    if s.drain.code != 200 { return Exit(RefusalExit(s.drain.code)), Refused(s.drain.code), trace; }
    q := Cleared(s.pid.pid, Unproven);
    if s.gap.Some? { return Escapes(s.gap.value), q, trace; }
    r, q, trace := Authorized(c, trace);
  }

  /** `run_safe_restart` */
  method Run(c: Call) returns (r: Exit, q: Phase, trace: seq<Event>)
    ensures In(trace, c, q) && Told(c, r, q) && CommandEnds(c, r, Outcomes(trace))
  {
    var a;
    a, q, trace := Lease(c);
    NothingPosted(trace, c.policy.health);
    if a.AcquireRaises? {
      return if a.e == HttpError then Exit(EXIT_UNAVAILABLE) else Escapes(a.e), q, trace;
    }
    if a.code != 201 { return Exit(RefusalExit(a.code)), q, trace; }
    r, q, trace := Leased(c, trace);
  }

  // ---------------------------------------------------------------- what a legal trace guarantees

  predicate IsGrant(e: Event) { e.Acquire? && e.code == 201 }

  /** The server's answer that the unit is busy. */
  predicate IsConflict(e: Event) { (e.Acquire? || e.Drain?) && e.code == 409 }

  predicate IsRestart(e: Event) { e.Restart? }

  predicate IsComplete(e: Event) { e.Complete? }

  predicate IsSuccess(e: Event) { e.Complete? && e.outcome == Success }

  ghost predicate Occurs(trace: seq<Event>, f: Event -> bool) {
    exists k :: 0 <= k < |trace| && f(trace[k])
  }

  lemma OccursSnoc(trace: seq<Event>, e: Event, f: Event -> bool)
    ensures Occurs(trace + [e], f) <==> Occurs(trace, f) || f(e)
  {
    var more := trace + [e];
    if k :| 0 <= k < |more| && f(more[k]) {
      assert k < |trace| ==> trace[k] == more[k];
    }
    if k :| 0 <= k < |trace| && f(trace[k]) {
      assert more[k] == trace[k];
    }
    assert more[|trace|] == e;
  }

  /** The last look saw the unit up as a new process, with nothing but health checks since. */
  predicate UpSince(trace: seq<Event>, k: int, oldPid: int, newPid: int) {
    && 0 <= k < |trace| && trace[k] == Look(true, newPid) && newPid != 0 && newPid != oldPid
    && forall j :: k < j < |trace| ==> trace[j].Health?
  }

  predicate HealthySince(trace: seq<Event>, k: int) {
    exists h :: 0 <= k < h < |trace| && trace[h].Health? && Ok2xx(trace[h].code)
  }

  ghost predicate UpBacked(trace: seq<Event>, p: Phase) {
    p.Issued? && p.up ==>
      p.newPid.Some? && exists k ::
        UpSince(trace, k, p.oldPid, p.newPid.value) && (p.healthy ==> HealthySince(trace, k))
  }

  predicate Knows(p: Phase) {
    p.Known? || p.Cleared? || p.Issued? || p.Posted?
  }

  /** Each phase stands for events of the trace. */
  ghost predicate Backed(trace: seq<Event>, p: Phase) {
    && (p == Granted || Knows(p) ==> Occurs(trace, IsGrant))
    && (Knows(p) ==> ReadPid(p.oldPid) in trace)
    && (p == Refused(409) <==> Occurs(trace, IsConflict))
    && (p.Cleared? || p.Issued? || p.Posted? <==> Drain(200) in trace)
    && (p.Issued? && p.rcZero ==> Restart(Some(0)) in trace)
    && (WasIssued(p) <==> Occurs(trace, IsRestart))
    && (p.Posted? <==> Occurs(trace, IsComplete))
    && (Claimed(p) <==> Occurs(trace, IsSuccess)) && (Won(p) <==> Occurs(trace, SuccessAccepted))
  }

  predicate ProofBacked(trace: seq<Event>, p: Phase) {
    p.Cleared? ==>
      && (p.proof == BeatHeld ==> |trace| > 0 && trace[|trace| - 1] == CheckBeat(false))
      && (p.proof == Reproven ==>
         |trace| > 1 && trace[|trace| - 1] == Recheck(true) && trace[|trace| - 2] == CheckBeat(false))
  }

  lemma StepIsBacked(before: seq<Event>, p: Phase, e: Event, health: bool)
    requires Backed(before, p) && Step(p, e, health).Some?
    ensures Backed(before + [e], Step(p, e, health).value)
  {
    OccursSnoc(before, e, IsGrant);
    OccursSnoc(before, e, IsConflict);
    OccursSnoc(before, e, IsRestart);
    OccursSnoc(before, e, IsComplete);
    OccursSnoc(before, e, IsSuccess);
    OccursSnoc(before, e, SuccessAccepted);
  }

  lemma UpStays(before: seq<Event>, p: Phase, e: Event, health: bool)
    requires UpBacked(before, p) && Step(p, e, health).Some?
    ensures UpBacked(before + [e], Step(p, e, health).value)
  {
    var trace := before + [e];
    if e.Look? {
      assert UpSince(trace, |before|, p.oldPid, e.pid) || !(e.active && e.pid != 0 && e.pid != p.oldPid);
    }
    if e.Health? {
      var k :| UpSince(before, k, p.oldPid, p.newPid.value) && (p.healthy ==> HealthySince(before, k));
      assert UpSince(trace, k, p.oldPid, p.newPid.value);
      assert trace[|before|] == e;
    }
  }

  lemma {:induction false} LegalIsBacked(trace: seq<Event>, health: bool)
    requires Legal(trace, health)
    ensures var p := After(trace, health).value; Backed(trace, p) && UpBacked(trace, p) && ProofBacked(trace, p)
  {
    if trace != [] {
      var before, e := trace[..|trace| - 1], trace[|trace| - 1];
      LegalIsBacked(before, health);
      assert trace == before + [e];
      var p := After(before, health).value;
      StepIsBacked(before, p, e, health);
      UpStays(before, p, e, health);
    }
  }

  lemma {:induction false} LegalPrefix(trace: seq<Event>, health: bool, n: nat)
    requires Legal(trace, health) && n <= |trace|
    ensures Legal(trace[..n], health)
    ensures n < |trace| ==> Step(After(trace[..n], health).value, trace[n], health).Some?
    decreases |trace|
  {
    if n < |trace| {
      var before := trace[..|trace| - 1];
      LegalPrefix(before, health, n);
      assert before[..n] == trace[..n];
    } else {
      assert trace[..n] == trace;
    }
  }

  predicate IsRelease(e: Event) { e.Release? }

  lemma StepReleases(before: seq<Event>, p: Phase, e: Event, health: bool)
    requires Step(p, e, health).Some? && (p == Released <==> Occurs(before, IsRelease))
    ensures Step(p, e, health) == Some(Released) <==> Occurs(before + [e], IsRelease)
  {
    OccursSnoc(before, e, IsRelease);
  }

  lemma {:induction false} ReleaseIsBacked(trace: seq<Event>, health: bool)
    requires Legal(trace, health)
    ensures After(trace, health) == Some(Released) <==> Occurs(trace, IsRelease)
  {
    if trace == [] {
    } else {
      var before, e := trace[..|trace| - 1], trace[|trace| - 1];
      ReleaseIsBacked(before, health);
      assert trace == before + [e];
      StepReleases(before, After(before, health).value, e, health);
    }
  }

  /** A restart is issued at most once, and only straight after a heartbeat that was not lost and a
      re-check that held, behind a granted lease and a cleared drain. */
  lemma RestartIsAuthorized(trace: seq<Event>, health: bool, i: nat)
    requires Legal(trace, health) && i < |trace| && trace[i].Restart?
    ensures i >= 2 && trace[i - 1] == Recheck(true) && trace[i - 2] == CheckBeat(false)
    ensures Drain(200) in trace[..i] && Occurs(trace[..i], IsGrant)
    ensures forall j :: 0 <= j < |trace| && trace[j].Restart? ==> j == i
  {
    LegalPrefix(trace, health, i);
    LegalIsBacked(trace[..i], health);
    forall j | 0 <= j < |trace| && trace[j].Restart? ensures j == i {
      OneRestart(trace, health, i, j);
      OneRestart(trace, health, j, i);
    }
  }

  lemma RestartBefore(trace: seq<Event>, i: nat, j: nat)
    requires j < i < |trace| && trace[j].Restart?
    ensures Occurs(trace[..i], IsRestart)
  {
    assert trace[..i][j].Restart?;
  }

  lemma PostBefore(trace: seq<Event>, i: nat, j: nat)
    requires j < i < |trace| && trace[j].Complete?
    ensures Occurs(trace[..i], IsComplete)
  {
    assert trace[..i][j].Complete?;
  }

  lemma OneRestart(trace: seq<Event>, health: bool, i: nat, j: nat)
    requires Legal(trace, health) && i < |trace| && j < |trace| && trace[i].Restart? && trace[j].Restart?
    ensures i <= j
  {
    if j < i {
      LegalPrefix(trace, health, i);
      LegalIsBacked(trace[..i], health);
      RestartBefore(trace, i, j);
    }
  }

  /** What was posted is true: "aborted" only if no restart is ever issued; "failed" or "timed out"
      only after one; "success" only after it returned 0 and the unit was seen up under a new, nonzero
      process id, the one reported, with a 2xx health check since if the policy names one. */
  lemma OutcomeIsTrue(trace: seq<Event>, health: bool, i: nat)
    requires Legal(trace, health) && i < |trace| && trace[i].Complete?
    ensures trace[i].outcome == Aborted <==> !Occurs(trace, IsRestart)
    ensures trace[i].outcome == Success ==>
              && Restart(Some(0)) in trace[..i] && ReadPid(trace[i].oldPid) in trace[..i] && trace[i].newPid.Some?
              && exists k ::
                   && UpSince(trace[..i], k, trace[i].oldPid, trace[i].newPid.value)
                   && (health ==> HealthySince(trace[..i], k))
  {
    LegalPrefix(trace, health, i);
    LegalIsBacked(trace[..i], health);
    if Occurs(trace, IsRestart) {
      var j :| 0 <= j < |trace| && IsRestart(trace[j]);
      NoRestartAfterReport(trace, health, i, j);
      RestartBefore(trace, i, j);
    }
    if Occurs(trace[..i], IsRestart) {
      var j :| 0 <= j < i && IsRestart(trace[..i][j]);
      assert IsRestart(trace[j]);
    }
  }

  lemma NoRestartAfterReport(trace: seq<Event>, health: bool, i: nat, j: nat)
    requires Legal(trace, health) && i < |trace| && j < |trace| && trace[i].Complete? && trace[j].Restart?
    ensures j < i
  {
    if i < j {
      LegalPrefix(trace, health, j);
      LegalIsBacked(trace[..j], health);
      PostBefore(trace, j, i);
    }
  }

  /** The whole command, told by what was answered. Every event of the trace is an answer it got. The
      restart is issued exactly when the lease was granted, the drain cleared, no renewal lost the lease
      or a needed drain, and the re-check proved itself; a success is posted exactly when moreover the
      restart returned 0 and a look in time saw the unit up under a new process, healthy if asked. Once a
      drain has cleared an outcome is posted, whatever raises, unless it raises before the `try` is
      entered: then none is, and the exception escapes. Before that a granted lease is released exactly
      when the process id cannot be read or the drain cannot be asked for. Exit 0 happens exactly when
      that success was accepted with a readable receipt, and an unreadable one exits 1; 1 and 5 mean the
      restart was issued, 2, 3 and 4 that it was not, and 2 that the server said busy. `CommandEnds` gives
      the exit and the posted outcomes of every case. */
  method SafeRestart(c: Call) returns (r: Exit, trace: seq<Event>)
    ensures Legal(trace, c.policy.health) && forall k :: 0 <= k < |trace| ==> Answers(trace[k], c)
    ensures Occurs(trace, IsRestart) <==> RestartGranted(c)
    ensures Occurs(trace, IsSuccess) <==> RestartGranted(c) && RestartVerified(c)
    ensures Occurs(trace, IsComplete) <==> DrainCleared(c) && c.s.gap.None?
    ensures DrainCleared(c) && c.s.gap.Some? ==> r == Escapes(c.s.gap.value)
    ensures Occurs(trace, IsRelease) <==> BacksOut(c)
    ensures BacksOut(c) && (c.s.release == None || c.s.release == Some(HttpError)) ==>
              r == Exit(if c.s.pid.Seen? then EXIT_UNAVAILABLE else EXIT_LOCAL)
    ensures r == Exit(EXIT_OK) <==> Occurs(trace, SuccessAccepted)
    ensures r == Exit(EXIT_OK) <==> RestartGranted(c) && RestartVerified(c) && c.s.report == Answered(200, true)
    ensures RestartGranted(c) && RestartVerified(c) && c.s.report == Answered(200, false) ==> r == Exit(EXIT_FAILED)
    ensures r == Exit(EXIT_FAILED) || r == Exit(EXIT_UNRECORDED) ==> Occurs(trace, IsRestart)
    ensures r == Exit(EXIT_BUSY) || r == Exit(EXIT_UNAVAILABLE) || r == Exit(EXIT_LOCAL) ==> !Occurs(trace, IsRestart)
    ensures r == Exit(EXIT_BUSY) <==> Occurs(trace, IsConflict)
    ensures r == Exit(EXIT_INTERRUPTED) ==> Occurs(trace, IsComplete)
    ensures CommandEnds(c, r, Outcomes(trace))
  {
    var q;
    r, q, trace := Run(c);
    LegalIsBacked(trace, c.policy.health);
    ReleaseIsBacked(trace, c.policy.health);
  }

  // ---------------------------------------------------------------- a recorded success that exits 1

  /** A restart that goes well, whose success the server records with an answer nobody can read. */
  function UnreadableCall(): Call {
    var up := Seen(true, false, 2);
    Call(Script(AcquireReply(201), AcquireReply(201), Seen(true, false, 1), AcquireReply(200), None,
                None, [], ProvenLease(), _ => ProvenLease(), Rc(0), _ => up, _ => HealthReply(200), _ => None, _ => 0,
                Answered(200, false), Answered(200, true)),
         Policy("lease", false, [], false, 1), false)
  }

  lemma UnreadableGoesWell()
    ensures RestartGranted(UnreadableCall()) && RestartVerified(UnreadableCall())
  {
    assert VerifiedAt(UnreadableCall(), 0);
  }

  /** The documentation's exit 0, "restarted and verified", is not reached: the command exits 1, after
      posting a success the server answered 200. */
  method UnreadableReceipt() returns (r: Exit, trace: seq<Event>)
    ensures r == Exit(EXIT_FAILED) && Occurs(trace, IsSuccess) && !Occurs(trace, SuccessAccepted)
  {
    UnreadableGoesWell();
    r, trace := SafeRestart(UnreadableCall());
  }
}
