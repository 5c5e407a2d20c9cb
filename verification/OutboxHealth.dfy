/** What the outbox counters add up to, and the run in which a delivered event is sent again. */
module OutboxHealth {
  import opened Wrappers
  import opened Outbox
  import opened OutboxRuns

  // ---------------------------------------------------------------- counters of health()

  function Delivered(t: Table): set<EventId> { set id | id in t && t[id].deliveredAt.Some? }
  function Rejected(t: Table): set<EventId> { set id | id in t && t[id].rejectedAt.Some? }
  function Suppressed(t: Table): set<EventId> { set id | id in t && t[id].suppressed }
  function StillPending(t: Table): set<EventId> { set id | id in t && Pending(t[id]) }
  function Attempted(t: Table): set<EventId> { set id | id in t && t[id].attempts > 0 }

  /** Conservation: every emitted event is in exactly one of the four counters. */
  lemma EmittedAddsUp(ephemeral: bool, states: seq<State>, steps: seq<Step>, i: nat)
    requires IsRun(ephemeral, states, steps) && i < |states|
    ensures var t := states[i].rows;
            |t| == |Delivered(t)| + |StillPending(t)| + |Rejected(t)| + |Suppressed(t)|
  {
    RunKeepsInv(ephemeral, states, steps, i);
    var t := states[i].rows;
    assert forall id :: id in t ==> GoodRow(states[i], id);
    var ends := Delivered(t) + Rejected(t) + Suppressed(t);
    assert Delivered(t) !! Rejected(t) !! Suppressed(t);
    assert ends !! StillPending(t) && ends + StillPending(t) == t.Keys;
    assert |ends| == |Delivered(t)| + |Rejected(t)| + |Suppressed(t)|;
    assert |t| == |t.Keys|;
  }

  ghost function PickOne(ids: set<EventId>): EventId
    requires ids != {}
  {
    var id :| id in ids; id
  }

  ghost function Sum(ids: set<EventId>, f: EventId -> nat): nat {
    if ids == {} then 0 else var id := PickOne(ids); f(id) + Sum(ids - {id}, f)
  }

  lemma {:induction false} SumOfRetries(ids: set<EventId>, attempts: EventId -> nat, retries: EventId -> nat)
    requires forall id :: retries(id) == if attempts(id) > 0 then attempts(id) - 1 else 0
    ensures Sum(ids, attempts) == Sum(ids, retries) + |set id | id in ids && attempts(id) > 0|
  {
    if ids == {} {
      assert (set id | id in ids && attempts(id) > 0) == {};
    } else {
      var x := PickOne(ids);
      SumOfRetries(ids - {x}, attempts, retries);
      var rest := set id | id in ids - {x} && attempts(id) > 0;
      var all := set id | id in ids && attempts(id) > 0;
      assert all == if attempts(x) > 0 then rest + {x} else rest;
    }
  }

  ghost function AttemptsOf(t: Table): EventId -> nat {
    id => if id in t then t[id].attempts else 0
  }

  ghost function RepeatsOf(t: Table): EventId -> nat {
    id => if id in t && t[id].attempts > 0 then t[id].attempts - 1 else 0
  }

  /** The retries counter, sum of attempts less rows attempted, is the sum of each row's repeats. */
  lemma RetriesAddUp(t: Table)
    ensures Sum(t.Keys, AttemptsOf(t)) - |Attempted(t)| == Sum(t.Keys, RepeatsOf(t))
  {
    SumOfRetries(t.Keys, AttemptsOf(t), RepeatsOf(t));
    assert Attempted(t) == set id | id in t.Keys && AttemptsOf(t)(id) > 0;
  }

  /** How many of the first `n` steps claim the row. */
  function ClaimCount(steps: seq<Step>, n: nat, id: EventId): nat
    requires n <= |steps|
  {
    if n == 0 then 0
    else
      ClaimCount(steps, n - 1, id)
      + if steps[n - 1].action.Claim? && id in steps[n - 1].action.picked then 1 else 0
  }

  /** `attempts` counts the claims of a row over the whole run: none is lost, none invented. */
  lemma {:induction false} AttemptsCountClaims(ephemeral: bool, states: seq<State>, steps: seq<Step>, i: nat,
                                               id: EventId)
    requires IsRun(ephemeral, states, steps) && i < |states|
    ensures ClaimCount(steps, i, id) == if id in states[i].rows then states[i].rows[id].attempts else 0
  {
    if i > 0 {
      AttemptsCountClaims(ephemeral, states, steps, i - 1, id);
      var s, step := states[i - 1], steps[i - 1];
      assert Enabled(ephemeral, s, step) && states[i] == Next(s, step);
      if step.action.Claim? && id in step.action.picked {
        var k :| 0 <= k < |step.action.picked| && step.action.picked[k] == id;
        assert Open(s.rows[step.action.picked[k]], step.action.now);
      }
    }
  }

  // ---------------------------------------------------------------- a repeated send

  /** The run ends with a sender posting a delivered row, `delay` after its pass's own clock reading. */
  ghost predicate Resends(states: seq<State>, steps: seq<Step>, e: EventId, delay: int) {
    IsRun(false, states, steps) && steps != [] &&
    var i := |steps| - 1;
    steps[i].action.Post? && steps[i].action.token in states[i].passes &&
    var p := states[i].passes[steps[i].action.token];
    && p.todo != [] && p.todo[0].id == e && e in states[i].rows && states[i].rows[e].deliveredAt.Some?
    && steps[i].at - p.now == delay
  }

  predicate NoRequeue(steps: seq<Step>) {
    forall k :: 0 <= k < |steps| ==> !steps[k].action.Requeue?
  }

  lemma {:induction false} PassesFollowTheClock(states: seq<State>, steps: seq<Step>, i: nat, token: Token)
    requires IsRun(false, states, steps) && i < |states| && token in states[i].passes
    ensures states[i].passes[token].now <= states[i].clock
    ensures NoRequeue(steps) ==> states[i].passes[token].disturbed == {}
  {
    if i == 0 {
    } else {
      var before, step := states[i - 1], steps[i - 1];
      assert Enabled(false, before, step) && states[i] == Next(before, step);
      if token in before.passes { PassesFollowTheClock(states, steps, i - 1, token); }
    }
  }

  lemma ResendIsLate(states: seq<State>, steps: seq<Step>, e: EventId, delay: int)
    requires Resends(states, steps, e, delay)
    ensures delay >= 0
    ensures NoRequeue(steps) ==> delay > CLAIM_LEASE_S
  {
    var i := |steps| - 1;
    assert Enabled(false, states[i], steps[i]);
    PassesFollowTheClock(states, steps, i, steps[i].action.token);
    ResendOnlyByStaleSender(false, states, steps, i);
  }

  /** One more step of a run. */
  lemma Extend(states: seq<State>, steps: seq<Step>, step: Step) returns (more: seq<State>, done: seq<Step>)
    requires IsRun(false, states, steps) && Enabled(false, states[|steps|], step)
    ensures done == steps + [step] && more == states + [Next(states[|steps|], step)]
    ensures IsRun(false, more, done)
  {
    done, more := steps + [step], states + [Next(states[|steps|], step)];
    forall i | 0 <= i < |done| ensures Enabled(false, more[i], done[i]) && more[i + 1] == Next(more[i], done[i]) {
      if i < |steps| { assert Enabled(false, states[i], steps[i]) && states[i + 1] == Next(states[i], steps[i]); }
    }
  }

  function Sent(now: int, attempt: nat, token: Token): Row {
    Row(0, OwnerCompleted, false, attempt, 0, Some(now), None, None, None, false, Some(token),
      Some(now + CLAIM_LEASE_S))
  }

  function Waiting(e: EventId, now: int, attempt: nat, disturbed: set<EventId>): Pass {
    Pass(now, 1, [Item(e, attempt)], None, disturbed)
  }

  /** The first sender has claimed the row, and nobody else has. */
  function Claimed1(e: EventId): State {
    State(map[e := Sent(0, 1, 1)], map[1 := Waiting(e, 0, 1, {})], 0, map[1 := 0], map[e := 0], {})
  }

  /** A second sender has claimed the row at `now`. */
  function Claimed2(e: EventId, now: int, disturbed: set<EventId>): State {
    State(map[e := Sent(now, 2, 2)], map[1 := Waiting(e, 0, 1, disturbed), 2 := Waiting(e, now, 2, {})], now,
          map[1 := 0, 2 := now], map[e := 0], {})
  }

  lemma FirstClaim(e: EventId) returns (states: seq<State>, steps: seq<Step>)
    ensures IsRun(false, states, steps) && NoRequeue(steps) && states[|steps|] == Claimed1(e)
  {
    var recorded := map[e := NewRow(0, 0, OwnerCompleted, false)];
    states, steps := Extend([Init], [], Step(Record(e, 0, 0, OwnerCompleted, false), 0));
    assert states[1] == State(recorded, map[], 0, map[], map[e := 0], {});
    assert ClaimRows(recorded, [e], 1, 0) == map[e := Sent(0, 1, 1)];
    assert Items(map[e := Sent(0, 1, 1)], [e]) == [Item(e, 1)];
    states, steps := Extend(states, steps, Step(Claim(1, 0, 50, [e]), 0));
  }

  lemma SecondClaim(e: EventId, row: Row, now: int, disturbed: set<EventId>)
    requires now >= 0 && Open(row, now)
        && row == Sent(0, 1, 1).(claimToken := row.claimToken, claimExpiresAt := row.claimExpiresAt)
    ensures var s := Claimed1(e).(rows := map[e := row], passes := map[1 := Waiting(e, 0, 1, disturbed)]);
            var claim := Step(Claim(2, now, 50, [e]), now);
            Enabled(false, s, claim) && Next(s, claim) == Claimed2(e, now, disturbed)
  {
    assert ClaimRows(map[e := row], [e], 2, now) == map[e := Sent(now, 2, 2)];
    assert Items(map[e := Sent(now, 2, 2)], [e]) == [Item(e, 2)];
    assert map[1 := 0][2 := now] == map[1 := 0, 2 := now];
  }

  /** The second sender delivers; the first then posts the delivered row. */
  lemma LatePost(states0: seq<State>, steps0: seq<Step>, e: EventId, now: int, disturbed: set<EventId>, delay: int)
    returns (states: seq<State>, steps: seq<Step>)
    requires IsRun(false, states0, steps0) && states0[|steps0|] == Claimed2(e, now, disturbed) && delay >= now
    ensures Resends(states, steps, e, delay) && (NoRequeue(steps0) ==> NoRequeue(steps))
  {
    states, steps := Extend(states0, steps0, Step(Post(2, Status(200)), now));
    states, steps := Extend(states, steps, Step(Finish(2, now), now));
    states, steps := Extend(states, steps, Step(Post(1, Status(200)), delay));
  }

  lemma ResendAfterLease(e: EventId, delay: int) returns (states: seq<State>, steps: seq<Step>)
    requires delay > CLAIM_LEASE_S
    ensures Resends(states, steps, e, delay) && NoRequeue(steps)
  {
    states, steps := FirstClaim(e);
    SecondClaim(e, Sent(0, 1, 1), CLAIM_LEASE_S + 1, {});
    states, steps := Extend(states, steps, Step(Claim(2, CLAIM_LEASE_S + 1, 50, [e]), CLAIM_LEASE_S + 1));
    states, steps := LatePost(states, steps, e, CLAIM_LEASE_S + 1, {}, delay);
  }

  function Freed(): Row {
    Sent(0, 1, 1).(claimToken := None, claimExpiresAt := None)
  }

  lemma Requeued(e: EventId)
    ensures Next(Claimed1(e), Step(Requeue({e}, 0), 0))
         == Claimed1(e).(rows := map[e := Freed()], passes := map[1 := Waiting(e, 0, 1, {e})])
  {
    var s := Claimed1(e);
    var n := Next(s, Step(Requeue({e}, 0), 0));
    assert n.rows == map[e := Freed()];
    assert n.base == map[e := 0];
    assert n.passes.Keys == {1} && n.passes[1].disturbed == {e};
    assert n.passes == map[1 := Waiting(e, 0, 1, {e})];
  }

  lemma ResendAfterRequeue(e: EventId, delay: int) returns (states: seq<State>, steps: seq<Step>)
    requires delay >= 0
    ensures Resends(states, steps, e, delay)
  {
    states, steps := FirstClaim(e);
    Requeued(e);
    states, steps := Extend(states, steps, Step(Requeue({e}, 0), 0));
    SecondClaim(e, Freed(), 0, {e});
    states, steps := Extend(states, steps, Step(Claim(2, 0, 50, [e]), 0));
    states, steps := LatePost(states, steps, e, 0, {e}, delay);
  }

  /** Delivery is at least once, not exactly once, because nothing is read between a pass's SELECT and
      its sends. Without a requeue a delivered row can be posted again exactly by a sender more than
      CLAIM_LEASE_S past its own clock reading; with one, after any delay. */
  lemma ResendDelays(e: EventId, delay: int)
    ensures (exists states, steps :: Resends(states, steps, e, delay) && NoRequeue(steps)) <==> delay > CLAIM_LEASE_S
    ensures (exists states, steps :: Resends(states, steps, e, delay)) <==> delay >= 0
  {
    forall states, steps | Resends(states, steps, e, delay)
      ensures delay >= 0 && (NoRequeue(steps) ==> delay > CLAIM_LEASE_S)
    {
      ResendIsLate(states, steps, e, delay);
    }
    if delay > CLAIM_LEASE_S { var states, steps := ResendAfterLease(e, delay); }
    if delay >= 0 { var states, steps := ResendAfterRequeue(e, delay); }
  }
}
