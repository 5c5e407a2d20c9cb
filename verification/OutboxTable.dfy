/** The outbox as the service uses it: one table, updated in place by each operation. */
module OutboxTables {
  import opened Wrappers
  import opened Outbox
  import opened OutboxRuns

  datatype Counters = Counters(due: nat, delivered: nat, failed: nat, rejected: nat, suppressed: nat, lostClaim: nat)

  const Nothing := Counters(0, 0, 0, 0, 0, 0)

  /** One send: what others commit while it is under way, its answer, and when it was recorded. */
  datatype Send = Send(others: Table -> Table, answer: Answer, finished: int)

  /** What becomes of one send. */
  datatype Fate = Delivered | Failed | Rejected | Lost

  function FateOf(during: Table, id: EventId, token: Token, answer: Answer): Fate {
    if !(id in during && during[id].claimToken == Some(token)) then Lost
    else if answer.Status? && 200 <= answer.code < 300 then Delivered
    else if answer == Status(409) || answer == Status(422) then Rejected
    else Failed
  }

  function Count(fates: seq<Fate>, f: Fate): nat {
    if fates == [] then 0 else Count(fates[..|fates| - 1], f) + if fates[|fates| - 1] == f then 1 else 0
  }

  /** The counters name each send by what became of it. */
  predicate Counts(out: Counters, fates: seq<Fate>) {
    && out.delivered == Count(fates, Delivered) && out.failed == Count(fates, Failed)
    && out.rejected == Count(fates, Rejected) && out.lostClaim == Count(fates, Lost)
  }

  lemma CountSnoc(fates: seq<Fate>, fate: Fate)
    ensures forall f :: Count(fates + [fate], f) == Count(fates, f) + if fate == f then 1 else 0
  {
    assert (fates + [fate])[..|fates|] == fates;
  }

  /** An answer to the SELECT by a token: the rows held under it, oldest first; ties in any order. */
  ghost predicate IsReadBack(t: Table, token: Token, read: seq<EventId>) {
    && Distinct(read) && (forall id :: id in read <==> Holds(t, id, token))
    && forall i, j :: 0 <= i < j < |read| && read[i] in t && read[j] in t ==>
       t[read[i]].createdAt <= t[read[j]].createdAt
  }

  function OpenRows(t: Table, now: int): set<EventId> {
    set id | id in t && Open(t[id], now)
  }

  /** Rows outside `ids` are as they were. */
  ghost predicate OthersKept(before: Table, after: Table, ids: set<EventId>) {
    forall id :: id in before && id !in ids ==> id in after && after[id] == before[id]
  }

  /** The event and the count of its attempts are the same. */
  predicate SameOrigin(was: Row, r: Row) {
    && r.reason == was.reason && r.hasHandoff == was.hasHandoff && r.createdAt == was.createdAt
    && r.attempts == was.attempts && r.lastAttemptAt == was.lastAttemptAt
  }

  /** What recording an answer makes of a row: it is freed, delivered at `finished` on a 2xx, rejected at
      `finished` on a 409 or 422, and otherwise as pending as it was, and open again exactly from `retryAt`. */
  ghost predicate Recorded(was: Row, r: Row, answer: Answer, finished: int, retryAt: int) {
    var accepted := answer.Status? && 200 <= answer.code < 300;
    var refused := answer == Status(409) || answer == Status(422);
    && r.claimToken.None? && r.claimExpiresAt.None?
    && SameOrigin(was, r) && r.suppressed == was.suppressed
    && r.lastError == (if accepted then None else Some(answer))
    && r.deliveredAt == (if accepted then Some(finished) else was.deliveredAt)
    && r.rejectedAt == (if refused then Some(finished) else was.rejectedAt)
    && (Pending(was) && !accepted && !refused ==> Pending(r) && forall t :: Open(r, t) <==> t >= retryAt)
  }

  /** One send, from `before` to `after`: others commit what they will, and then a row still held under
      the token is recorded; nothing else changes. */
  ghost predicate Sends(before: Table, after: Table, fate: Fate, token: Token, now: int, item: Item, send: Send) {
    var during := send.others(before);
    && after.Keys == during.Keys && OthersKept(during, after, {item.id})
    && fate == FateOf(during, item.id, token, send.answer)
    && (if fate == Lost then after == during
        else Recorded(during[item.id], after[item.id], send.answer, send.finished, now + Backoff(item.attempts)))
  }

  /** The states between the sends of a batch, and what became of each. */
  datatype Trail = Trail(tables: seq<Table>, fates: seq<Fate>)

  ghost predicate SendsAt(t: Trail, token: Token, now: int, items: seq<Item>, sends: seq<Send>, k: int) {
    && 0 <= k < |items| && |t.tables| == |items| + 1 && |t.fates| == |items| == |sends|
    && Sends(t.tables[k], t.tables[k + 1], t.fates[k], token, now, items[k], sends[k])
  }

  ghost predicate History(t: Trail, token: Token, now: int, items: seq<Item>, sends: seq<Send>) {
    && |t.tables| == |items| + 1 && |t.fates| == |items| == |sends|
    && forall k :: 0 <= k < |items| ==> SendsAt(t, token, now, items, sends, k)
  }

  lemma HistorySnoc(t: Trail, token: Token, now: int, items: seq<Item>, sends: seq<Send>,
                    item: Item, send: Send, after: Table, fate: Fate)
    requires History(t, token, now, items, sends) && Sends(t.tables[|items|], after, fate, token, now, item, send)
    ensures History(Trail(t.tables + [after], t.fates + [fate]), token, now, items + [item], sends + [send])
  {
    var more := Trail(t.tables + [after], t.fates + [fate]);
    forall k | 0 <= k <= |items| ensures SendsAt(more, token, now, items + [item], sends + [send], k) {
      if k < |items| { assert SendsAt(t, token, now, items, sends, k); }
    }
  }

  /** What others commit during a send leaves the row alone. */
  ghost predicate Spares(send: Send, id: EventId) {
    forall t :: id in t ==> id in send.others(t) && send.others(t)[id] == t[id]
  }

  /** Nobody touches the row during the sends after the k-th, and it is not sent again. */
  ghost predicate LeftAlone(items: seq<Item>, sends: seq<Send>, k: int, id: EventId) {
    |items| == |sends| && forall j :: 0 <= j < |items| && k < j ==> items[j].id != id && Spares(sends[j], id)
  }

  lemma SendSpares(before: Table, after: Table, fate: Fate, token: Token, now: int, item: Item, send: Send, id: EventId)
    requires Sends(before, after, fate, token, now, item, send) && item.id != id && Spares(send, id) && id in before
    ensures id in after && after[id] == before[id]
  {
  }

  /** Such a row stays as it is; with `k` -1, a row outside the batch. */
  lemma {:induction false} AloneStays(t: Trail, token: Token, now: int, items: seq<Item>, sends: seq<Send>,
                                      k: int, j: nat, id: EventId)
    requires History(t, token, now, items, sends) && LeftAlone(items, sends, k, id)
    requires -1 <= k < j <= |items| && id in t.tables[k + 1]
    ensures id in t.tables[j] && t.tables[j][id] == t.tables[k + 1][id]
  {
    if j == k + 1 {
    } else {
      AloneStays(t, token, now, items, sends, k, j - 1, id);
      assert SendsAt(t, token, now, items, sends, j - 1);
      SendSpares(t.tables[j - 1], t.tables[j], t.fates[j - 1], token, now, items[j - 1], sends[j - 1], id);
    }
  }

  /** A row still held when its answer comes, and left alone afterwards, ends recorded: a failed send is
      retried exactly from the pass's time plus the backoff of the attempt read back. */
  lemma HeldRowIsRecorded(t: Trail, token: Token, now: int, items: seq<Item>, sends: seq<Send>, k: nat)
    requires History(t, token, now, items, sends) && k < |items| && LeftAlone(items, sends, k, items[k].id)
    requires var during := sends[k].others(t.tables[k]);
             items[k].id in during && during[items[k].id].claimToken == Some(token)
    ensures var id := items[k].id; var was, end := sends[k].others(t.tables[k])[id], t.tables[|items|];
            id in end && Recorded(was, end[id], sends[k].answer, sends[k].finished, now + Backoff(items[k].attempts))
  {
    assert SendsAt(t, token, now, items, sends, k);
    AloneStays(t, token, now, items, sends, k, |items|, items[k].id);
  }

  class OutboxTable {
    var rows: Table

    constructor ()
      ensures rows == map[]
    {
      rows := map[];
    }

    /** A known event id changes nothing; a new one is pending, unattempted and due from `nextAttemptAt`. */
    method RecordCompletion(id: EventId, createdAt: int, nextAttemptAt: int, reason: Reason, hasHandoff: bool)
      modifies this
      ensures id in old(rows) ==> rows == old(rows)
      ensures rows.Keys == old(rows).Keys + {id} && OthersKept(old(rows), rows, {id})
      ensures id !in old(rows) ==>
                var r := rows[id];
                && Pending(r) && r.attempts == 0 && r.createdAt == createdAt && r.reason == reason
                && r.hasHandoff == hasHandoff
                && forall now :: Open(r, now) <==> now >= nextAttemptAt
    {
      if id !in rows {
        rows := rows[id := NewRow(createdAt, nextAttemptAt, reason, hasHandoff)];
      }
    }

    /** Only the holder of a claim writes an outcome. It frees the row: delivered on 2xx, rejected on
        409 or 422, and otherwise as pending as it was, and open again exactly from `retryAt`. */
    method Finish(id: EventId, token: Token, answer: Answer, finished: int, retryAt: int) returns (kept: bool)
      modifies this
      ensures kept == Holds(old(rows), id, token)
      ensures !kept ==> rows == old(rows)
      ensures rows.Keys == old(rows).Keys && OthersKept(old(rows), rows, {id})
      ensures kept ==> Recorded(old(rows)[id], rows[id], answer, finished, retryAt)
    {
      kept := id in rows && rows[id].claimToken == Some(token);
      if kept {
        rows := rows[id := Outcome(rows[id], answer, finished, retryAt)];
      }
    }

    /** The operator's way back: each named row that is neither delivered nor suppressed is open at
        once, whatever rejected or held it; no other row changes, and the count is of those that do. */
    method Requeue(ids: set<EventId>, now: int) returns (count: nat)
      modifies this
      ensures rows.Keys == old(rows).Keys && OthersKept(old(rows), rows, ids)
      ensures forall id :: id in ids && id in old(rows) ==>
                var was, r := old(rows)[id], rows[id];
                if was.deliveredAt.Some? || was.suppressed then r == was
                else && Pending(r) && r.claimToken.None? && r.claimExpiresAt.None?
                     && SameOrigin(was, r) && r.lastError == was.lastError
                     && forall t :: Open(r, t) <==> t >= now
      ensures count == |set id | id in ids && id in old(rows) && old(rows)[id].deliveredAt.None?
          && !old(rows)[id].suppressed|
    {
      var changed := set id | id in ids && id in rows && rows[id].deliveredAt.None? && !rows[id].suppressed;
      rows := RequeueRows(rows, ids, now);
      count := |changed|;
    }

    /** One row of the loop: its send, and its outcome recorded under its counter. */
    method SendOne(token: Token, now: int, item: Item, send: Send, c: Counters)
      returns (out: Counters, ghost fate: Fate)
      modifies this
      ensures Sends(old(rows), rows, fate, token, now, item, send)
      ensures out == match fate
                     case Delivered => c.(delivered := c.delivered + 1)
                     case Failed => c.(failed := c.failed + 1)
                     case Rejected => c.(rejected := c.rejected + 1)
                     case Lost => c.(lostClaim := c.lostClaim + 1)
    {
      rows := send.others(rows);
      fate := FateOf(rows, item.id, token, send.answer);
      var kept := Finish(item.id, token, send.answer, send.finished, now + Backoff(item.attempts));
      out := c;
      if !kept {
        out := out.(lostClaim := out.lostClaim + 1);
      } else if Accepted(send.answer) {
        out := out.(delivered := out.delivered + 1);
      } else if Refused(send.answer) {
        out := out.(rejected := out.rejected + 1);
      } else {
        out := out.(failed := out.failed + 1);
      }
    }

    /** The sending loop over the claimed rows. */
    method SendClaimed(token: Token, now: int, items: seq<Item>, sends: seq<Send>, due: nat)
      returns (out: Counters, ghost trail: Trail)
      requires |sends| == |items|
      modifies this
      ensures History(trail, token, now, items, sends)
      ensures trail.tables[0] == old(rows) && trail.tables[|items|] == rows
      ensures Counts(out, trail.fates) && out.due == due && out.suppressed == 0
      ensures out.delivered + out.failed + out.rejected + out.lostClaim == |items|
    {
      out := Nothing.(due := due);
      trail := Trail([rows], []);
      for i := 0 to |items|
        invariant History(trail, token, now, items[..i], sends[..i])
        invariant trail.tables[0] == old(rows) && trail.tables[i] == rows
        invariant Counts(out, trail.fates) && out.due == due && out.suppressed == 0
        invariant out.delivered + out.failed + out.rejected + out.lostClaim == i
      {
        ghost var fate;
        out, fate := SendOne(token, now, items[i], sends[i], out);
        HistorySnoc(trail, token, now, items[..i], sends[..i], items[i], sends[i], rows, fate);
        CountSnoc(trail.fates, fate);
        trail := Trail(trail.tables + [rows], trail.fates + [fate]);
        assert items[..i] + [items[i]] == items[..i + 1] && sends[..i] + [sends[i]] == sends[..i + 1];
      }
      assert items[..|items|] == items && sends[..|items|] == sends;
    }

    /** One delivery pass. `picked` is the database's answer to the candidate query, `token` a fresh
        uuid, `between` whatever other processes commit between the claim and the SELECT by the token,
        `read` that SELECT's answer, and `sends[k].others` what they commit during the k-th send. */
    method DeliverPending(enabled: bool, ephemeral: bool, now: int, limit: nat, token: Token, picked: seq<EventId>,
                          between: Table -> Table, read: seq<EventId>, sends: seq<Send>)
      returns (out: Counters, ghost trail: Trail)
      requires IsSelection(rows, now, limit, picked)
      requires IsReadBack(between(ClaimRows(rows, picked, token, now)), token, read) && |sends| == |read|
      modifies this
      ensures !enabled ==> rows == old(rows) && out == Nothing
      ensures enabled && ephemeral ==>
                && rows.Keys == old(rows).Keys
                && forall id :: id in rows ==>
                     rows[id] == if Open(old(rows)[id], now) then old(rows)[id].(suppressed := true) else old(rows)[id]
      ensures enabled && ephemeral ==>
                var n := |OpenRows(old(rows), now)|; out == Nothing.(due := n, suppressed := n)
      ensures enabled && !ephemeral ==>
                var claimed := between(ClaimRows(old(rows), picked, token, now));
                && (forall k :: 0 <= k < |read| ==> read[k] in claimed)
                && History(trail, token, now, Items(claimed, read), sends)
                && trail.tables[0] == claimed && trail.tables[|read|] == rows
                && Counts(out, trail.fates) && out.due == |read|
      ensures out.due == out.delivered + out.failed + out.rejected + out.suppressed + out.lostClaim
    {
      if !enabled {
        return Nothing, Trail([], []);
      }
      if ephemeral {
        var n := |OpenRows(rows, now)|;
        rows := SuppressRows(rows, now);
        return Nothing.(due := n, suppressed := n), Trail([], []);
      }
      rows := ClaimRows(rows, picked, token, now);
      rows := between(rows);
      assert forall k :: 0 <= k < |read| ==> read[k] in read;
      out, trail := SendClaimed(token, now, Items(rows, read), sends, |read|);
    }
  }

  /** The claiming UPDATE, row by row: a picked row that is open is held under the token for the lease, as
      one more attempt; every other row is as it was. */
  lemma ClaimedRow(t: Table, picked: seq<EventId>, token: Token, now: int, id: EventId)
    requires id in t
    ensures var claimed := ClaimRows(t, picked, token, now);
            && claimed.Keys == t.Keys
            && claimed[id] == if id !in picked || !Open(t[id], now) then t[id]
                              else t[id].(claimToken := Some(token), claimExpiresAt := Some(now + 120),
                                          attempts := t[id].attempts + 1, lastAttemptAt := Some(now))
  {
  }

  /** Others may do anything to rows the pass does not hold. */
  ghost predicate Respects(others: Table -> Table, token: Token) {
    forall t, id :: Holds(t, id, token) ==> id in others(t) && others(t)[id] == t[id]
  }

  /** What a pass reads back by its fresh token it has claimed; and it reads back every claim, unless
      one was taken away in between. */
  lemma ClaimedByToken(t: Table, now: int, limit: nat, picked: seq<EventId>, token: Token,
                       between: Table -> Table, read: seq<EventId>)
    requires IsSelection(t, now, limit, picked)
    requires forall x :: x in t ==> t[x].claimToken != Some(token)
    requires forall u, x :: Holds(between(u), x, token) ==> Holds(u, x, token)
    requires IsReadBack(between(ClaimRows(t, picked, token, now)), token, read)
    ensures forall id :: id in read ==> id in picked
    ensures Respects(between, token) ==> multiset(read) == multiset(picked)
  {
    var claimed := ClaimRows(t, picked, token, now);
    forall id | id in read ensures id in picked {
      assert Holds(claimed, id, token);
    }
    if Respects(between, token) {
      forall k | 0 <= k < |picked| ensures picked[k] in read {
        assert Open(t[picked[k]], now) && Holds(claimed, picked[k], token);
      }
      DistinctOnce(read);
      DistinctOnce(picked);
    }
  }

  lemma {:induction false} DistinctOnce(s: seq<EventId>)
    requires Distinct(s)
    ensures forall x :: multiset(s)[x] == if x in s then 1 else 0
  {
    if s == [] {
    } else {
      var n := |s| - 1;
      DistinctOnce(s[..n]);
      assert s == s[..n] + [s[n]];
    }
  }

  /** The rows of a batch the pass still holds. */
  predicate HoldsAll(t: Table, token: Token, items: seq<Item>) {
    forall k :: 0 <= k < |items| ==> Holds(t, items[k].id, token)
  }

  predicate DistinctItems(items: seq<Item>) {
    forall i, j :: 0 <= i < j < |items| ==> items[i].id != items[j].id
  }

  lemma {:induction false} StillHeld(t: Trail, token: Token, now: int, items: seq<Item>, sends: seq<Send>, k: nat,
                                     j: nat)
    requires History(t, token, now, items, sends) && DistinctItems(items) && HoldsAll(t.tables[0], token, items)
    requires forall i :: 0 <= i < |sends| ==> Respects(sends[i].others, token)
    requires k <= j < |items|
    ensures Holds(t.tables[k], items[j].id, token)
  {
    if k > 0 {
      StillHeld(t, token, now, items, sends, k - 1, j);
      assert SendsAt(t, token, now, items, sends, k - 1) && Respects(sends[k - 1].others, token);
      OtherSend(t.tables[k - 1], t.tables[k], t.fates[k - 1], token, now, items[k - 1], sends[k - 1], items[j].id);
    }
  }

  lemma OtherSend(before: Table, after: Table, fate: Fate, token: Token, now: int, item: Item, send: Send, id: EventId)
    requires Sends(before, after, fate, token, now, item, send) && Respects(send.others, token)
    requires item.id != id && Holds(before, id, token)
    ensures Holds(after, id, token)
  {
  }

  /** A pass whose claims nobody takes away loses none, and every answer is its row's fate. */
  lemma UndisturbedPass(t: Trail, token: Token, now: int, items: seq<Item>, sends: seq<Send>, k: nat)
    requires History(t, token, now, items, sends) && DistinctItems(items) && HoldsAll(t.tables[0], token, items)
    requires forall i :: 0 <= i < |sends| ==> Respects(sends[i].others, token)
    requires k < |items|
    ensures var answer := sends[k].answer;
            t.fates[k] == if answer.Status? && 200 <= answer.code < 300 then Delivered
                          else if answer == Status(409) || answer == Status(422) then Rejected else Failed
  {
    StillHeld(t, token, now, items, sends, k, k);
    assert SendsAt(t, token, now, items, sends, k) && Respects(sends[k].others, token);
    assert Holds(t.tables[k], items[k].id, token);
  }
}
