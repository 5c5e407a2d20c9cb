/** Every interleaving of senders, recorders, crashes and requeues over one outbox. */
module OutboxRuns {
  import opened Wrappers
  import opened Outbox

  /** A row a pass claimed, with the attempt number it read back. */
  datatype Item = Item(id: EventId, attempts: nat)

  /** A sending pass: its `now`, the size of its batch, the rows left to send, the answer it has not
      recorded yet, and (for the statements only) the rows requeued since it claimed them. */
  datatype Pass = Pass(now: int, total: nat, todo: seq<Item>, answer: Option<Answer>, disturbed: set<EventId>)

  /** `used`: each token ever drawn, with its pass's `now`. `base`: each row's recording or last
      requeue time. `acked`: the events Echo has answered 2xx. */
  datatype State = State(rows: Table, passes: map<Token, Pass>, clock: int,
                         used: map<Token, int>, base: map<EventId, int>, acked: set<EventId>)

  datatype Action =
    | Record(id: EventId, createdAt: int, nextAttemptAt: int, reason: Reason, hasHandoff: bool)
    | Claim(token: Token, now: int, limit: nat, picked: seq<EventId>)
    | ReadBack(token: Token)
    | Post(token: Token, answer: Answer)
    | Finish(token: Token, finished: int)
    | Crash(token: Token)
    | Requeue(ids: set<EventId>, now: int)
    | Suppress(now: int)

  /** An action and the moment it commits. A clock reading inside the action is never later. */
  datatype Step = Step(action: Action, at: int)

  const Init := State(map[], map[], 0, map[], map[], {})

  function Items(rows: Table, picked: seq<EventId>): seq<Item>
    requires forall k :: 0 <= k < |picked| ==> picked[k] in rows
  {
    seq(|picked|, k requires 0 <= k < |picked| => Item(picked[k], rows[picked[k]].attempts))
  }

  /** What a SELECT by the token returns of a batch: the rows still held, with their attempt numbers. */
  function Held(rows: Table, token: Token, items: seq<Item>): seq<Item> {
    if items == [] then []
    else (if Holds(rows, items[0].id, token) then [Item(items[0].id, rows[items[0].id].attempts)] else [])
         + Held(rows, token, items[1..])
  }

  /** `ephemeral` is fixed for a run: an in-memory database only suppresses, any other only sends. */
  ghost predicate Enabled(ephemeral: bool, s: State, step: Step) {
    s.clock <= step.at &&
    match step.action
    case Record(_, created, next, _, _) => next <= step.at
    case Claim(token, now, limit, picked) =>
      !ephemeral && token !in s.used && now <= step.at && IsSelection(s.rows, now, limit, picked)
    case ReadBack(token) =>
      token in s.passes && |s.passes[token].todo| == s.passes[token].total && s.passes[token].answer.None?
    case Post(token, _) => token in s.passes && s.passes[token].todo != [] && s.passes[token].answer.None?
    case Finish(token, finished) =>
      token in s.passes && s.passes[token].todo != [] && s.passes[token].answer.Some? && finished <= step.at
    case Crash(token) => token in s.passes
    case Requeue(_, now) => now <= step.at
    case Suppress(now) => ephemeral && now <= step.at
  }

  function Next(s: State, step: Step): State {
    var t := s.(clock := step.at);
    match step.action
    case Record(id, created, next, reason, handoff) =>
      if id in s.rows then t
      else t.(rows := RecordRow(s.rows, id, NewRow(created, next, reason, handoff)), base := s.base[id := next])
    case Claim(token, now, _, picked) =>
      var rows := ClaimRows(s.rows, picked, token, now);
      if forall k :: 0 <= k < |picked| ==> picked[k] in rows then
        t.(rows := rows, used := s.used[token := now],
           passes := s.passes[token := Pass(now, |picked|, Items(rows, picked), None, {})])
      else t
    case ReadBack(token) =>
      if token in s.passes then
        var todo := Held(s.rows, token, s.passes[token].todo);
        t.(passes := s.passes[token := s.passes[token].(total := |todo|, todo := todo)])
      else t
    case Post(token, answer) =>
      if token in s.passes && s.passes[token].todo != [] then
        var p := s.passes[token];
        t.(passes := s.passes[token := p.(answer := Some(answer))],
           acked := if Accepted(answer) then s.acked + {p.todo[0].id} else s.acked)
      else t
    case Finish(token, finished) =>
      if token in s.passes && s.passes[token].todo != [] && s.passes[token].answer.Some? then
        var p := s.passes[token];
        var item := p.todo[0];
        t.(rows := FinishRow(s.rows, item.id, token, p.answer.value, finished, p.now + Backoff(item.attempts)),
           passes := s.passes[token := p.(todo := p.todo[1..], answer := None)])
      else t
    case Crash(token) => t.(passes := s.passes - {token})
    case Requeue(ids, now) =>
      t.(rows := RequeueRows(s.rows, ids, now),
         base := map id | id in s.base ::
           if id in ids && id in s.rows && Requeueable(s.rows[id]) then now else s.base[id],
         passes := map k | k in s.passes :: s.passes[k].(disturbed := s.passes[k].disturbed + ids))
    case Suppress(now) => t.(rows := SuppressRows(s.rows, now))
  }

  ghost predicate IsRun(ephemeral: bool, states: seq<State>, steps: seq<Step>) {
    && |states| == |steps| + 1 && states[0] == Init
    && forall i :: 0 <= i < |steps| ==>
         Enabled(ephemeral, states[i], steps[i]) && states[i + 1] == Next(states[i], steps[i])
  }

  // ---------------------------------------------------------------- the invariant

  function AtMostOne(a: bool, b: bool, c: bool): bool {
    !(a && b) && !(a && c) && !(b && c)
  }

  /** One row: a claimed row is pending, held under a known token whose lease runs from its last
      attempt; at most one end; and the next attempt is never later than the retry cap allows. */
  predicate GoodRow(s: State, id: EventId) {
    id in s.rows && id in s.base && var r := s.rows[id];
    && (r.claimToken.Some? <==> r.claimExpiresAt.Some?)
    && (r.claimToken.Some? ==>
          Pending(r) && r.claimToken.value in s.used
          && r.lastAttemptAt == Some(s.used[r.claimToken.value])
          && r.claimExpiresAt == Some(s.used[r.claimToken.value] + CLAIM_LEASE_S))
    && AtMostOne(r.deliveredAt.Some?, r.rejectedAt.Some?, r.suppressed)
    && (r.lastAttemptAt.Some? <==> r.attempts > 0)
    && (r.nextAttemptAt <= s.base[id]
       || (r.lastAttemptAt.Some? && r.nextAttemptAt <= r.lastAttemptAt.value + RETRY_CAP_S))
    && (r.deliveredAt.Some? ==> id in s.acked)
  }

  /** One pass: it sends distinct known rows, and where it still holds the claim the row is as it
      left it. Where it does not, its lease has run out or the row was requeued. */
  predicate GoodPass(s: State, token: Token) {
    token in s.passes && var p := s.passes[token];
    && token in s.used && s.used[token] == p.now && |p.todo| <= p.total
    && (forall i, j :: 0 <= i < j < |p.todo| ==> p.todo[i].id != p.todo[j].id)
    && (p.answer.Some? && p.todo != [] && Accepted(p.answer.value) ==> p.todo[0].id in s.acked)
    && forall k :: 0 <= k < |p.todo| ==> GoodItem(s, token, p, p.todo[k])
  }

  predicate GoodItem(s: State, token: Token, p: Pass, item: Item) {
    && item.id in s.rows
    && (Holds(s.rows, item.id, token) ==> s.rows[item.id].attempts == item.attempts)
    && (Holds(s.rows, item.id, token) || item.id in p.disturbed || s.clock > p.now + CLAIM_LEASE_S)
  }

  ghost predicate Inv(ephemeral: bool, s: State) {
    && (forall id :: id in s.rows ==> GoodRow(s, id))
    && (forall token :: token in s.passes ==> GoodPass(s, token))
    && (ephemeral ==> s.passes == map[] && s.used == map[])
  }

  lemma FinishKeepsRow(s: State, step: Step, id: EventId)
    requires step.action.Finish? && id in s.rows && GoodRow(s, id)
    requires GoodPass(s, step.action.token)
    requires s.passes[step.action.token].todo != [] && s.passes[step.action.token].answer.Some?
    ensures GoodRow(Next(s, step), id)
  {
    var token := step.action.token;
    var p := s.passes[token];
    assert GoodItem(s, token, p, p.todo[0]);
    BackoffBounds(p.todo[0].attempts, p.todo[0].attempts);
  }

  lemma OtherKeepsRow(s: State, step: Step, id: EventId)
    requires step.action.ReadBack? || step.action.Post? || step.action.Crash? || step.action.Suppress?
    requires id in s.rows && GoodRow(s, id)
    requires step.action.Suppress? ==> s.used == map[]
    ensures GoodRow(Next(s, step), id)
  {
  }

  lemma RequeueKeepsRow(s: State, step: Step, id: EventId)
    requires step.action.Requeue? && id in s.rows && GoodRow(s, id)
    ensures GoodRow(Next(s, step), id)
  {
  }

  lemma RowKept(ephemeral: bool, s: State, step: Step, id: EventId)
    requires Inv(ephemeral, s) && Enabled(ephemeral, s, step) && id in Next(s, step).rows
    ensures GoodRow(Next(s, step), id)
  {
    assert id in s.rows ==> GoodRow(s, id);
    if step.action.Finish? {
      assert GoodPass(s, step.action.token);
      FinishKeepsRow(s, step, id);
    } else if step.action.Claim? {
      ClaimKeepsRow(s, step, id);
    } else if step.action.Requeue? {
      RequeueKeepsRow(s, step, id);
    } else if step.action.Record? {
      RecordKeepsRow(s, step, id);
    } else {
      OtherKeepsRow(s, step, id);
    }
  }

  lemma RecordKeepsRow(s: State, step: Step, id: EventId)
    requires step.action.Record? && id in Next(s, step).rows && (id in s.rows ==> GoodRow(s, id))
    ensures GoodRow(Next(s, step), id)
  {
  }

  lemma ClaimKeepsRow(s: State, step: Step, id: EventId)
    requires step.action.Claim? && id in s.rows && GoodRow(s, id) && step.action.token !in s.used
    ensures GoodRow(Next(s, step), id)
  {
  }

  lemma {:induction false} HeldAreHeld(rows: Table, token: Token, items: seq<Item>)
    ensures |Held(rows, token, items)| <= |items|
    ensures forall x :: x in Held(rows, token, items) ==>
              Holds(rows, x.id, token) && x.attempts == rows[x.id].attempts && exists y :: y in items && y.id == x.id
  {
    if items == [] {
    } else {
      HeldAreHeld(rows, token, items[1..]);
      assert items[0] in items;
    }
  }

  lemma {:induction false} HeldAreDistinct(rows: Table, token: Token, items: seq<Item>)
    requires forall i, j :: 0 <= i < j < |items| ==> items[i].id != items[j].id
    ensures var held := Held(rows, token, items); forall i, j :: 0 <= i < j < |held| ==> held[i].id != held[j].id
  {
    if items == [] {
    } else {
      var rest := Held(rows, token, items[1..]);
      HeldAreDistinct(rows, token, items[1..]);
      HeldAreHeld(rows, token, items[1..]);
      assert forall k :: 0 <= k < |rest| ==> rest[k] in rest;
    }
  }

  /** A pass that reads its batch back goes on with rows it holds. */
  lemma ReadBackKeepsPass(s: State, step: Step, token: Token)
    requires step.action == ReadBack(token) && s.clock <= step.at && token in s.passes && GoodPass(s, token)
    requires s.passes[token].answer.None?
    ensures GoodPass(Next(s, step), token)
  {
    HeldAreHeld(s.rows, token, s.passes[token].todo);
    HeldAreDistinct(s.rows, token, s.passes[token].todo);
    var n := Next(s, step);
    var p := n.passes[token];
    forall k | 0 <= k < |p.todo| ensures GoodItem(n, token, p, p.todo[k]) {
      assert p.todo[k] in p.todo;
    }
  }

  /** What a pass keeps of itself, its rows aside. */
  lemma PassShape(s: State, step: Step, token: Token)
    requires step.action != ReadBack(token)
    requires token in s.passes && GoodPass(s, token) && token in Next(s, step).passes
    requires step.action.Claim? ==> step.action.token !in s.used
    requires step.action.Post? && step.action.token == token ==> s.passes[token].todo != []
    ensures var n := Next(s, step); var p := n.passes[token];
            (forall k :: 0 <= k < |p.todo| ==> GoodItem(n, token, p, p.todo[k])) ==> GoodPass(n, token)
  {
  }

  lemma NewPassShape(s: State, step: Step, now: int)
    requires step.action.Claim? && step.action.now == now && step.action.token !in s.used
    requires IsSelection(s.rows, now, step.action.limit, step.action.picked)
    ensures step.action.token in Next(s, step).passes && GoodPass(Next(s, step), step.action.token)
  {
    var n := Next(s, step);
    var token, picked := step.action.token, step.action.picked;
    var p := n.passes[token];
    assert p.todo == Items(n.rows, picked);
    forall k | 0 <= k < |picked| ensures GoodItem(n, token, p, p.todo[k]) {
      assert Open(s.rows[picked[k]], now);
    }
  }

  lemma PassKept(ephemeral: bool, s: State, step: Step, token: Token)
    requires Inv(ephemeral, s) && Enabled(ephemeral, s, step) && token in Next(s, step).passes
    ensures GoodPass(Next(s, step), token)
  {
    if step.action == ReadBack(token) {
      assert GoodPass(s, token);
      ReadBackKeepsPass(s, step, token);
    } else if token in s.passes {
      assert GoodPass(s, token);
      forall k | 0 <= k < |Next(s, step).passes[token].todo|
        ensures var n := Next(s, step); GoodItem(n, token, n.passes[token], n.passes[token].todo[k])
      {
        ItemKept(ephemeral, s, step, token, k);
      }
      PassShape(s, step, token);
    } else {
      NewPassShape(s, step, step.action.now);
    }
  }

  /** A row another sender finishes, or that is recorded, keeps what a pass knows of it. */
  lemma FinishKeepsItem(s: State, step: Step, token: Token, p: Pass, item: Item)
    requires step.action.Finish? && GoodPass(s, step.action.token) && s.clock <= step.at
    requires s.passes[step.action.token].todo != [] && s.passes[step.action.token].answer.Some?
    requires GoodItem(s, token, p, item)
    requires step.action.token == token ==> item.id != s.passes[token].todo[0].id
    ensures GoodItem(Next(s, step), token, p, item)
  {
  }

  lemma ClaimKeepsItem(s: State, step: Step, token: Token, p: Pass, item: Item)
    requires step.action.Claim? && GoodRow(s, item.id) && s.clock <= step.at
    requires step.action.token !in s.used && token in s.used && s.used[token] == p.now
    requires step.action.now <= step.at && GoodItem(s, token, p, item)
    ensures GoodItem(Next(s, step), token, p, item)
  {
  }

  lemma OtherKeepsItem(s: State, step: Step, token: Token, p: Pass, item: Item)
    requires !step.action.Claim? && !step.action.Finish? && step.action != ReadBack(token) && s.clock <= step.at
    requires GoodItem(s, token, p, item) && token in s.passes && p == s.passes[token]
    requires token in Next(s, step).passes
    ensures GoodItem(Next(s, step), token, Next(s, step).passes[token], item)
  {
  }

  /** The row a pass goes on to, and what was known of it before the step. */
  lemma ItemBefore(s: State, step: Step, token: Token, k: nat) returns (item: Item)
    requires token in s.passes && GoodPass(s, token) && token in Next(s, step).passes
    requires step.action.Claim? ==> step.action.token != token
    requires step.action != ReadBack(token)
    requires step.action.Finish? && step.action.token == token ==>
               s.passes[token].todo != [] && s.passes[token].answer.Some?
    requires k < |Next(s, step).passes[token].todo|
    ensures item == Next(s, step).passes[token].todo[k] && GoodItem(s, token, s.passes[token], item)
    ensures step.action.Finish? && step.action.token == token ==>
              s.passes[token].todo != [] && item.id != s.passes[token].todo[0].id
    ensures Next(s, step).passes[token].now == s.passes[token].now
    ensures !step.action.Requeue? ==> Next(s, step).passes[token].disturbed == s.passes[token].disturbed
  {
    item := Next(s, step).passes[token].todo[k];
    var was := s.passes[token];
    var j := if |Next(s, step).passes[token].todo| < |was.todo| then k + 1 else k;
    assert was.todo[j] == item && GoodItem(s, token, was, item);
  }

  lemma ItemKept(ephemeral: bool, s: State, step: Step, token: Token, k: nat)
    requires Inv(ephemeral, s) && Enabled(ephemeral, s, step) && token in s.passes
    requires step.action != ReadBack(token)
    requires token in Next(s, step).passes && k < |Next(s, step).passes[token].todo|
    ensures var n := Next(s, step); GoodItem(n, token, n.passes[token], n.passes[token].todo[k])
  {
    assert GoodPass(s, token);
    var item := ItemBefore(s, step, token, k);
    var was := s.passes[token];
    if step.action.Finish? {
      assert GoodPass(s, step.action.token);
      FinishKeepsItem(s, step, token, was, item);
    } else if step.action.Claim? {
      assert GoodRow(s, item.id);
      ClaimKeepsItem(s, step, token, was, item);
    } else {
      OtherKeepsItem(s, step, token, was, item);
    }
  }

  lemma StepKeepsInv(ephemeral: bool, s: State, step: Step)
    requires Inv(ephemeral, s) && Enabled(ephemeral, s, step)
    ensures Inv(ephemeral, Next(s, step))
  {
    forall id | id in Next(s, step).rows ensures GoodRow(Next(s, step), id) {
      RowKept(ephemeral, s, step, id);
    }
    forall token | token in Next(s, step).passes ensures GoodPass(Next(s, step), token) {
      PassKept(ephemeral, s, step, token);
    }
  }

  lemma {:induction false} RunKeepsInv(ephemeral: bool, states: seq<State>, steps: seq<Step>, i: nat)
    requires IsRun(ephemeral, states, steps) && i < |states|
    ensures Inv(ephemeral, states[i])
  {
    if i > 0 {
      RunKeepsInv(ephemeral, states, steps, i - 1);
      StepKeepsInv(ephemeral, states[i - 1], steps[i - 1]);
    }
  }

  // ---------------------------------------------------------------- safety

  /** In every reachable state a claimed row is undelivered, unrejected and unsuppressed, and no row
      has two ends. */
  lemma ClaimedRowsArePending(ephemeral: bool, states: seq<State>, steps: seq<Step>, i: nat, id: EventId)
    requires IsRun(ephemeral, states, steps) && i < |states| && id in states[i].rows
    ensures var r := states[i].rows[id];
            && (r.claimToken.Some? ==> Pending(r))
            && AtMostOne(r.deliveredAt.Some?, r.rejectedAt.Some?, r.suppressed)
  {
    RunKeepsInv(ephemeral, states, steps, i);
    assert GoodRow(states[i], id);
  }

  lemma StepOutcome(ephemeral: bool, s: State, step: Step, id: EventId)
    requires Inv(ephemeral, s) && Enabled(ephemeral, s, step) && id in s.rows
    requires Pending(s.rows[id]) && !Pending(Next(s, step).rows[id])
    ensures if ephemeral then step.action.Suppress?
            else step.action.Finish?
                 && Holds(s.rows, id, step.action.token) && s.passes[step.action.token].todo[0].id == id
                 && (Next(s, step).rows[id].deliveredAt.Some? <==> Accepted(s.passes[step.action.token].answer.value))
  {
  }

  /** A row is ended only by the current holder of its claim (or by suppression), and delivered only
      when Echo answered 2xx to that holder. */
  lemma OutcomeIsTheHolders(ephemeral: bool, states: seq<State>, steps: seq<Step>, i: nat, id: EventId)
    requires IsRun(ephemeral, states, steps) && i < |steps| && id in states[i].rows
    requires Pending(states[i].rows[id]) && !Pending(states[i + 1].rows[id])
    ensures !ephemeral ==>
            && steps[i].action.Finish?
            && var token := steps[i].action.token;
            && Holds(states[i].rows, id, token)
            && states[i].passes[token].todo[0].id == id
            && (states[i + 1].rows[id].deliveredAt.Some? <==> Accepted(states[i].passes[token].answer.value))
    ensures ephemeral ==> steps[i].action.Suppress?
  {
    RunKeepsInv(ephemeral, states, steps, i);
    StepOutcome(ephemeral, states[i], steps[i], id);
  }

  /** Echo has answered 2xx for every delivered event. */
  lemma DeliveredWasAccepted(ephemeral: bool, states: seq<State>, steps: seq<Step>, i: nat, id: EventId)
    requires IsRun(ephemeral, states, steps) && i < |states| && id in states[i].rows
    ensures states[i].rows[id].deliveredAt.Some? ==> id in states[i].acked
  {
    RunKeepsInv(ephemeral, states, steps, i);
    assert GoodRow(states[i], id);
  }

  lemma RowsStay(ephemeral: bool, s: State, step: Step, id: EventId)
    requires Inv(ephemeral, s) && Enabled(ephemeral, s, step) && id in s.rows
    ensures id in Next(s, step).rows
    ensures s.rows[id].deliveredAt.Some? || s.rows[id].suppressed ==> Next(s, step).rows[id] == s.rows[id]
  {
    assert GoodRow(s, id);
  }

  lemma RunRowsStay(ephemeral: bool, states: seq<State>, steps: seq<Step>, i: nat, id: EventId)
    requires IsRun(ephemeral, states, steps) && i < |steps| && id in states[i].rows
    ensures id in states[i + 1].rows
    ensures states[i].rows[id].deliveredAt.Some? || states[i].rows[id].suppressed ==>
              states[i + 1].rows[id] == states[i].rows[id]
  {
    RunKeepsInv(ephemeral, states, steps, i);
    RowsStay(ephemeral, states[i], steps[i], id);
  }

  /** Once delivered, a row never changes again, whatever anyone does. */
  lemma {:induction false} DeliveredIsFinal(ephemeral: bool, states: seq<State>, steps: seq<Step>, i: nat, j: nat,
                                            id: EventId)
    requires IsRun(ephemeral, states, steps) && i <= j < |states|
    requires id in states[i].rows && (states[i].rows[id].deliveredAt.Some? || states[i].rows[id].suppressed)
    ensures id in states[j].rows && states[j].rows[id] == states[i].rows[id]
  {
    if i == j {
    } else {
      DeliveredIsFinal(ephemeral, states, steps, i, j - 1, id);
      RunRowsStay(ephemeral, states, steps, j - 1, id);
    }
  }

  // ---------------------------------------------------------------- timing

  /** Step `k` claims the row. */
  ghost predicate Claims(states: seq<State>, steps: seq<Step>, k: int, id: EventId)
    requires |states| == |steps| + 1
  {
    0 <= k < |steps| && steps[k].action.Claim? && id in steps[k].action.picked
  }

  /** The step is no claim, finish or requeue of this row: the sender may finish others of its batch. */
  ghost predicate LeavesClaim(s: State, step: Step, id: EventId, token: Token) {
    match step.action
    case Claim(_, _, _, picked) => id !in picked
    case Finish(t, _) => t != token || (t in s.passes && s.passes[t].todo != [] && s.passes[t].todo[0].id != id)
    case Requeue(ids, _) => id !in ids
    case _ => true
  }

  lemma ClaimHeldOn(ephemeral: bool, states: seq<State>, steps: seq<Step>, i: nat, j: nat, id: EventId)
    requires IsRun(ephemeral, states, steps) && i < j < |states|
    requires Claims(states, steps, i, id)
    requires forall k :: i < k < j ==> LeavesClaim(states[k], steps[k], id, steps[i].action.token)
    ensures Holds(states[j].rows, id, steps[i].action.token)
    ensures steps[i].action.token in states[j].used
    ensures states[j].used[steps[i].action.token] == steps[i].action.now
    decreases j
  {
    RunKeepsInv(ephemeral, states, steps, j - 1);
    if j == i + 1 {
      var k :| 0 <= k < |steps[i].action.picked| && steps[i].action.picked[k] == id;
    } else {
      ClaimHeldOn(ephemeral, states, steps, i, j - 1, id);
      assert LeavesClaim(states[j - 1], steps[j - 1], id, steps[i].action.token);
      StepHolds(ephemeral, states[j - 1], steps[j - 1], id, steps[i].action.token);
    }
  }

  lemma StepHolds(ephemeral: bool, s: State, step: Step, id: EventId, token: Token)
    requires Inv(ephemeral, s) && Enabled(ephemeral, s, step)
    requires Holds(s.rows, id, token) && token in s.used && LeavesClaim(s, step, id, token)
    ensures Holds(Next(s, step).rows, id, token) && token in Next(s, step).used
        && Next(s, step).used[token] == s.used[token]
  {
    assert GoodRow(s, id);
    if step.action.Finish? { assert GoodPass(s, step.action.token); }
  }

  /** A second sender claims an unfinished row only strictly more than the lease after the first. */
  lemma ClaimsAreALeaseApart(ephemeral: bool, states: seq<State>, steps: seq<Step>, i: nat, j: nat, id: EventId)
    requires IsRun(ephemeral, states, steps) && i < j < |steps|
    requires Claims(states, steps, i, id) && Claims(states, steps, j, id)
    requires forall k :: i < k < j ==> LeavesClaim(states[k], steps[k], id, steps[i].action.token)
    ensures steps[j].action.now > steps[i].action.now + CLAIM_LEASE_S
  {
    ClaimHeldOn(ephemeral, states, steps, i, j, id);
    RunKeepsInv(ephemeral, states, steps, j);
    assert GoodRow(states[j], id);
    var k :| 0 <= k < |steps[j].action.picked| && steps[j].action.picked[k] == id;
    assert Open(states[j].rows[steps[j].action.picked[k]], steps[j].action.now);
  }

  /** A sender still inside its lease, whose row was not requeued, records its outcome. */
  lemma LiveSenderKeepsClaim(ephemeral: bool, states: seq<State>, steps: seq<Step>, i: nat)
    requires IsRun(ephemeral, states, steps) && i < |steps| && steps[i].action.Finish?
    requires var p := states[i].passes[steps[i].action.token];
             states[i].clock <= p.now + CLAIM_LEASE_S && p.todo[0].id !in p.disturbed
    ensures Holds(states[i].rows, states[i].passes[steps[i].action.token].todo[0].id, steps[i].action.token)
  {
    RunKeepsInv(ephemeral, states, steps, i);
    var token := steps[i].action.token;
    assert GoodPass(states[i], token);
    assert GoodItem(states[i], token, states[i].passes[token], states[i].passes[token].todo[0]);
  }

  /** When a batch of `total` rows at `perRow` seconds each fits the lease, no live sender loses a
      claim: the row at position `done` is finished by `now + (done + 1) * perRow`. */
  lemma FittingBatchKeepsClaims(ephemeral: bool, states: seq<State>, steps: seq<Step>, i: nat, perRow: nat)
    requires IsRun(ephemeral, states, steps) && i < |steps| && steps[i].action.Finish?
    requires var p := states[i].passes[steps[i].action.token];
             && p.total * perRow <= CLAIM_LEASE_S && p.todo[0].id !in p.disturbed
             && var done := p.total - |p.todo|; steps[i].at <= p.now + (done + 1) * perRow
    ensures Holds(states[i].rows, states[i].passes[steps[i].action.token].todo[0].id, steps[i].action.token)
  {
    var p := states[i].passes[steps[i].action.token];
    var done := p.total - |p.todo|;
    assert done + 1 <= p.total;
    assert (done + 1) * perRow <= p.total * perRow;
    LiveSenderKeepsClaim(ephemeral, states, steps, i);
  }

  /** A delivered row is sent again only by a sender that outlived its lease, or across a requeue. */
  lemma ResendOnlyByStaleSender(ephemeral: bool, states: seq<State>, steps: seq<Step>, i: nat)
    requires IsRun(ephemeral, states, steps) && i < |steps| && steps[i].action.Post?
    requires var p := states[i].passes[steps[i].action.token];
             p.todo[0].id in states[i].rows && states[i].rows[p.todo[0].id].deliveredAt.Some?
    ensures var p := states[i].passes[steps[i].action.token];
            states[i].clock > p.now + CLAIM_LEASE_S || p.todo[0].id in p.disturbed
  {
    RunKeepsInv(ephemeral, states, steps, i);
    var token := steps[i].action.token;
    assert GoodPass(states[i], token);
    assert GoodItem(states[i], token, states[i].passes[token], states[i].passes[token].todo[0]);
    assert GoodRow(states[i], states[i].passes[token].todo[0].id);
  }

  /** A pending row is open again at the latest once recording, the last requeue and the last attempt
      plus the retry cap are all past. */
  lemma PendingReopens(ephemeral: bool, states: seq<State>, steps: seq<Step>, i: nat, id: EventId, now: int)
    requires IsRun(ephemeral, states, steps) && i < |states| && id in states[i].rows
    requires Pending(states[i].rows[id]) && id in states[i].base
    requires now >= states[i].base[id]
    requires states[i].rows[id].lastAttemptAt.Some? ==> now >= states[i].rows[id].lastAttemptAt.value + RETRY_CAP_S
    ensures Open(states[i].rows[id], now)
  {
    RunKeepsInv(ephemeral, states, steps, i);
    assert GoodRow(states[i], id);
  }

  /** A failed send the sender still held: the row is pending, unclaimed, and open again exactly from
      the pass's own time plus the backoff of the attempt it read back. */
  lemma FailureWaitsItsBackoff(ephemeral: bool, states: seq<State>, steps: seq<Step>, i: nat, now: int)
    requires IsRun(ephemeral, states, steps) && i < |steps| && steps[i].action.Finish?
    requires var p := states[i].passes[steps[i].action.token];
             && !Accepted(p.answer.value) && !Refused(p.answer.value)
             && Holds(states[i].rows, p.todo[0].id, steps[i].action.token)
    ensures var p := states[i].passes[steps[i].action.token]; var id := p.todo[0].id;
            && id in states[i + 1].rows && Pending(states[i + 1].rows[id]) && states[i + 1].rows[id].claimToken.None?
            && states[i + 1].rows[id].attempts == states[i].rows[id].attempts == p.todo[0].attempts
            && (Open(states[i + 1].rows[id], now) <==> now >= p.now + Backoff(states[i].rows[id].attempts))
  {
    RunKeepsInv(ephemeral, states, steps, i);
    var token := steps[i].action.token;
    var item := states[i].passes[token].todo[0];
    assert GoodPass(states[i], token);
    assert GoodItem(states[i], token, states[i].passes[token], item);
    assert GoodRow(states[i], item.id);
  }
}
