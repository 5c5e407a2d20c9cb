/** The completion outbox of completion_events.py: its rows, and the single statements that touch them. */
module Outbox {
  import opened Wrappers

  const RETRY_BASE_S := 30
  const RETRY_CAP_S := 3600
  const CLAIM_LEASE_S := 120

  type EventId = string

  /** A sender's uuid; only freshness and equality matter. */
  type Token = nat

  datatype Reason = OwnerCompleted | Reaped

  /** What one POST to Echo comes back with. */
  datatype Answer = Status(code: int) | Unreachable

  datatype Row = Row(createdAt: int, reason: Reason, hasHandoff: bool, attempts: nat, nextAttemptAt: int,
                     lastAttemptAt: Option<int>, lastError: Option<Answer>,
                     deliveredAt: Option<int>, rejectedAt: Option<int>, suppressed: bool,
                     claimToken: Option<Token>, claimExpiresAt: Option<int>)

  type Table = map<EventId, Row>

  function NewRow(createdAt: int, nextAttemptAt: int, reason: Reason, hasHandoff: bool): Row {
    Row(createdAt, reason, hasHandoff, 0, nextAttemptAt, None, None, None, None, false, None, None)
  }

  function Pow2(n: nat): nat {
    if n == 0 then 1 else 2 * Pow2(n - 1)
  }

  /** `_backoff`, in seconds */
  function Backoff(attempts: nat): int {
    var raw := RETRY_BASE_S * Pow2(if attempts > 0 then attempts - 1 else 0);
    if raw < RETRY_CAP_S then raw else RETRY_CAP_S
  }

  /** A row none of the three ends has ended. */
  predicate Pending(r: Row) {
    r.deliveredAt.None? && r.rejectedAt.None? && !r.suppressed
  }

  /** `_open(now)`; a NULL expiry compares as not smaller. */
  predicate Open(r: Row, now: int) {
    && Pending(r) && r.nextAttemptAt <= now
    && (r.claimToken.None? || (r.claimExpiresAt.Some? && r.claimExpiresAt.value < now))
  }

  // ---------------------------------------------------------------- statements

  /** `record_completion` adds a row only under a new event id. */
  function RecordRow(t: Table, id: EventId, row: Row): Table {
    if id in t then t else t[id := row]
  }

  function Claimed(r: Row, token: Token, now: int): Row {
    r.(claimToken := Some(token), claimExpiresAt := Some(now + CLAIM_LEASE_S),
       attempts := r.attempts + 1, lastAttemptAt := Some(now))
  }

  /** The claiming UPDATE: the candidate rows that are still open. */
  function ClaimRows(t: Table, picked: seq<EventId>, token: Token, now: int): Table {
    map id | id in t :: if id in picked && Open(t[id], now) then Claimed(t[id], token, now) else t[id]
  }

  predicate Accepted(a: Answer) {
    a.Status? && 200 <= a.code < 300
  }

  predicate Refused(a: Answer) {
    a.Status? && (a.code == 409 || a.code == 422)
  }

  /** The values `_finish` writes for an answer. */
  function Outcome(r: Row, answer: Answer, finished: int, retryAt: int): Row {
    var free := r.(claimToken := None, claimExpiresAt := None);
    if Accepted(answer) then free.(deliveredAt := Some(finished), lastError := None)
    else if Refused(answer) then free.(rejectedAt := Some(finished), lastError := Some(answer))
    else free.(lastError := Some(answer), nextAttemptAt := retryAt)
  }

  predicate Holds(t: Table, id: EventId, token: Token) {
    id in t && t[id].claimToken == Some(token)
  }

  /** `_finish`: the outcome is written only while the claim is held. */
  function FinishRow(t: Table, id: EventId, token: Token, answer: Answer, finished: int, retryAt: int): Table {
    if Holds(t, id, token) then t[id := Outcome(t[id], answer, finished, retryAt)] else t
  }

  /** What the requeueing UPDATE selects among the named rows. */
  predicate Requeueable(r: Row) {
    r.deliveredAt.None? && !r.suppressed
  }

  function RequeueRows(t: Table, ids: set<EventId>, now: int): Table {
    map id | id in t ::
      if id in ids && Requeueable(t[id]) then
        t[id].(rejectedAt := None, nextAttemptAt := now, claimToken := None, claimExpiresAt := None)
      else t[id]
  }

  /** The suppressing UPDATE of an ephemeral database; it leaves the claim columns alone. */
  function SuppressRows(t: Table, now: int): Table {
    map id | id in t :: if Open(t[id], now) then t[id].(suppressed := true) else t[id]
  }

  // ---------------------------------------------------------------- choosing candidates

  predicate Distinct<T(==)>(s: seq<T>) {
    forall i, j :: 0 <= i < j < |s| ==> s[i] != s[j]
  }

  /** An answer to the candidate query: the `limit` oldest open rows; ties in any order. */
  ghost predicate IsSelection(t: Table, now: int, limit: nat, picked: seq<EventId>) {
    && Distinct(picked) && |picked| <= limit
    && (forall k :: 0 <= k < |picked| ==> picked[k] in t && Open(t[picked[k]], now))
    && (forall i, j :: 0 <= i < j < |picked| ==> t[picked[i]].createdAt <= t[picked[j]].createdAt)
    && (forall id :: id in t && Open(t[id], now) && id !in picked ==>
          |picked| == limit && forall k :: 0 <= k < |picked| ==> t[picked[k]].createdAt <= t[id].createdAt)
  }

  lemma OldestOf(t: Table, ids: set<EventId>) returns (id: EventId)
    requires ids != {} && forall x :: x in ids ==> x in t
    ensures id in ids && forall x :: x in ids ==> t[id].createdAt <= t[x].createdAt
    decreases |ids|
  {
    id :| id in ids;
    var first := id;
    var rest := ids - {first};
    assert forall x :: x in ids ==> x in rest || x == first;
    if rest != {} {
      var other := OldestOf(t, rest);
      if t[other].createdAt < t[first].createdAt { id := other; }
    }
  }

  /** The candidate query always has an answer. */
  lemma {:induction false} SelectionExists(t: Table, now: int, limit: nat)
    ensures exists picked :: IsSelection(t, now, limit, picked)
  {
    if limit == 0 {
      assert IsSelection(t, now, 0, []);
    } else {
      SelectionExists(t, now, limit - 1);
      var picked :| IsSelection(t, now, limit - 1, picked);
      var left := set id | id in t && Open(t[id], now) && id !in picked;
      if left == {} {
        assert forall id :: id in t && Open(t[id], now) && id !in picked ==> id in left;
        assert IsSelection(t, now, limit, picked);
      } else {
        var next := OldestOf(t, left);
        var more := picked + [next];
        assert forall id :: id in t && Open(t[id], now) && id !in more ==> id in left;
        assert IsSelection(t, now, limit, more);
      }
    }
  }

  // ---------------------------------------------------------------- backoff

  lemma {:induction false} Pow2Monotone(a: nat, b: nat)
    requires a <= b
    ensures 1 <= Pow2(a) <= Pow2(b)
    decreases b
  {
    if b > 0 {
      if a < b { Pow2Monotone(a, b - 1); } else { Pow2Monotone(a - 1, b - 1); }
    }
  }

  lemma EightDoublings()
    ensures Pow2(0) == 1 && Pow2(7) == 128
  {
    assert Pow2(4) == 16;
  }

  /** Retries back off from RETRY_BASE_S to RETRY_CAP_S, never shrinking, doubling until the cap. */
  lemma BackoffBounds(a: nat, b: nat)
    requires a <= b
    ensures RETRY_BASE_S <= Backoff(a) <= Backoff(b) <= RETRY_CAP_S
    ensures a >= 1 && Backoff(a + 1) < RETRY_CAP_S ==> Backoff(a + 1) == 2 * Backoff(a)
    ensures Backoff(0) == Backoff(1) == 30 && Backoff(8) == 3600
  {
    Pow2Monotone(if a > 0 then a - 1 else 0, if b > 0 then b - 1 else 0);
    Pow2Monotone(0, if a > 0 then a - 1 else 0);
    EightDoublings();
  }
}
