/** The mail operations as the service runs them: row by row over one store, each row guarded by its
    own compare-and-set. `acked` names the selected messages whose reader acknowledges them between
    the SELECT and their own UPDATE. */
module TicketStores {
  import opened Wrappers
  import opened Tickets
  import opened TicketRuns

  /** The selected rows that nobody acknowledged in time. */
  function Unacked(rows: seq<Mid>, acked: set<Mid>): nat {
    if rows == [] then 0
    else Unacked(rows[..|rows| - 1], acked) + (if rows[|rows| - 1] in acked then 0 else 1)
  }

  ghost predicate PoolRows(st: Store, sid: Sid, rows: seq<Mid>) {
    Selects(rows, mid => Pooled(st, mid, sid))
  }

  ghost predicate UnreadRows(st: Store, sid: Sid, rows: seq<Mid>) {
    Selects(rows, mid => Unread(st, mid, sid))
  }

  function MovedMids(moves: seq<Move>): seq<Mid> {
    seq(|moves|, k requires 0 <= k < |moves| => moves[k].mid)
  }

  /** A selected batch: every row still matches its own guard. */
  ghost predicate Movable(st: Store, moves: seq<Move>) {
    DistinctMoves(moves) && forall k :: 0 <= k < |moves| ==> Applies(st, moves[k])
  }

  /** A row moves unless it was acknowledged first, and moving it leaves the rest of its batch as selected. */
  lemma OneRow(st: Store, moves: seq<Move>, acked: set<Mid>)
    requires Movable(st, moves) && moves != []
    ensures var mv := moves[0]; var now := if mv.mid in acked then Acknowledge(st, mv.mid) else st;
            && (Applies(now, mv) <==> mv.mid !in acked || mv.from.None?)
            && Movable(ApplyMove(now, mv), moves[1..])
  {
    var mv := moves[0];
    var now := if mv.mid in acked then Acknowledge(st, mv.mid) else st;
    forall k | 0 <= k < |moves| - 1 ensures Applies(ApplyMove(now, mv), moves[1..][k]) {
      assert moves[k + 1].mid != mv.mid && Applies(st, moves[k + 1]);
      MoveLeaves(now, mv, moves[k + 1].mid);
    }
  }

  lemma MoveLeaves(st: Store, mv: Move, mid: Mid)
    requires mid in st.messages && mid != mv.mid
    ensures ApplyMove(st, mv).messages[mid] == st.messages[mid]
  {
  }

  class TicketStore {
    var st: Store

    constructor ()
      ensures st == Empty
    {
      st := Empty;
    }

    /** One guarded UPDATE and the log entries and handoff that follow it. */
    method MoveRow(mv: Move) returns (moved: bool)
      modifies this
      ensures moved == Applies(old(st), mv)
      ensures st == ApplyMove(old(st), mv)
      ensures moved <==> mv.mid in old(st).messages && var m := old(st).messages[mv.mid];
                         m.recipient == mv.from && !m.acknowledged
      ensures !moved ==> st == old(st)
      ensures moved ==>
                var m := old(st).messages[mv.mid];
                var agent := if mv.to.Some? && mv.to.value in st.sessions then st.sessions[mv.to.value].agent else "";
                && st.sessions == old(st).sessions
                && st.messages == old(st).messages[mv.mid := m.(recipient := mv.to, recipientAgent := agent,
                                                                history := m.history + mv.events)]
                && st.handoffs.Keys == old(st).handoffs.Keys
                && forall h :: h in st.handoffs ==>
                     st.handoffs[h] == if m.handoff == Some(h) then mv.to else old(st).handoffs[h]
    {
      moved := mv.mid in st.messages && st.messages[mv.mid].recipient == mv.from && !st.messages[mv.mid].acknowledged;
      if moved {
        var m := st.messages[mv.mid];
        var row := m.(recipient := mv.to, recipientAgent := AgentOf(st, mv.to), history := m.history + mv.events);
        st := st.(messages := st.messages[mv.mid := row]);
        if m.handoff.Some? && m.handoff.value in st.handoffs {
          st := st.(handoffs := st.handoffs[m.handoff.value := mv.to]);
        }
      }
    }

    /** The loop the three operations share, and its count. */
    method MoveRows(moves: seq<Move>, acked: set<Mid>) returns (count: nat)
      requires Movable(st, moves) && forall k :: 0 <= k < |moves| ==> moves[k].from.Some? || moves[k].mid !in acked
      modifies this
      ensures st == ApplyMoves(old(st), moves, acked)
      ensures count == Unacked(MovedMids(moves), acked)
    {
      count := 0;
      assert moves[0..] == moves;
      for i := 0 to |moves|
        invariant ApplyMoves(st, moves[i..], acked) == ApplyMoves(old(st), moves, acked)
        invariant Movable(st, moves[i..])
        invariant count == Unacked(MovedMids(moves)[..i], acked)
      {
        assert moves[i..][0] == moves[i] && moves[i..][1..] == moves[i + 1..];
        assert MovedMids(moves)[..i + 1][..i] == MovedMids(moves)[..i];
        OneRow(st, moves[i..], acked);
        if moves[i].mid in acked {
          st := Acknowledge(st, moves[i].mid);
        }
        var moved := MoveRow(moves[i]);
        if moved { count := count + 1; }
      }
      assert MovedMids(moves)[..|moves|] == MovedMids(moves);
    }

    /** `reconcile_ticket_mail` */
    method Reconcile(ticket: Option<int>, uid: Option<int>, holder: Option<Sid>,
                     owner: Option<Sid>, rows: seq<Mid>, acked: set<Mid>)
      returns (moved: nat)
      requires ticket.Some? && uid.Some? ==> ReconcileEnabled(st, ticket.value, uid.value, holder, owner, rows)
      modifies this
      ensures ticket.None? || uid.None? ==> st == old(st) && moved == 0
      ensures ticket.Some? && uid.Some? ==>
                && st == DoReconcile(old(st), ticket.value, uid.value, holder, owner, rows, acked)
                && moved == Unacked(rows, acked)
    {
      if ticket.None? || uid.None? {
        return 0;
      }
      RowsAreMisplaced(st, ticket.value, uid.value, holder, rows);
      var moves := ReconcileMoves(st, rows, owner, holder);
      moved := MoveRows(moves, acked);
      assert MovedMids(moves) == rows;
    }

    /** `claim_pool`; a session that is not a live owner claims nothing. */
    method ClaimPool(sid: Sid, rows: seq<Mid>) returns (claimed: nat)
      requires sid in st.sessions && PoolRows(st, sid, rows)
      modifies this
      ensures claimed == if Enabled(old(st), TicketRuns.ClaimPool(sid, rows)) then |rows| else 0
      ensures st == if Enabled(old(st), TicketRuns.ClaimPool(sid, rows))
                    then Next(old(st), TicketRuns.ClaimPool(sid, rows))
                    else old(st)
    {
      var s := st.sessions[sid];
      ClaimIs(st, sid, rows);
      if s.role != Some(Owner) || s.ticket.None? || s.uid.None? || !Live(s) {
        return 0;
      }
      forall k | 0 <= k < |rows| ensures Pooled(st, rows[k], sid) {
        assert rows[k] in rows;
      }
      var moves := ClaimMoves(rows, sid);
      claimed := MoveRows(moves, {});
      assert MovedMids(moves) == rows;
      NobodyAcked(rows);
    }

    /** `release_unread_ticket_messages` */
    method Release(sid: Sid, rows: seq<Mid>, acked: set<Mid>) returns (released: nat)
      requires UnreadRows(st, sid, rows)
      modifies this
      ensures forall k :: 0 <= k < |rows| ==> rows[k] in old(st).messages
      ensures st == ApplyMoves(old(st), ReleaseMoves(old(st), rows, sid), acked)
      ensures released == Unacked(rows, acked)
    {
      forall k | 0 <= k < |rows| ensures Unread(st, rows[k], sid) {
        assert rows[k] in rows;
      }
      var moves := ReleaseMoves(st, rows, sid);
      released := MoveRows(moves, acked);
      assert |moves| == |rows| && forall k :: 0 <= k < |rows| ==> moves[k].mid == rows[k];
      assert MovedMids(moves) == rows;
    }

    /** `yield_ownership_if_taken` */
    method YieldOwnership(sid: Sid, other: Option<Sid>, owner: Option<Sid>, rows: seq<Mid>, acked: set<Mid>)
      returns (demoted: bool)
      requires YieldEnabled(st, sid, other, owner, rows)
      modifies this
      ensures demoted == Demotes(old(st), sid, other)
      ensures st == Yielded(old(st), sid, other, owner, rows, acked)
    {
      var s := st.sessions[sid];
      if s.role != Some(Owner) || other.None? {
        return false;
      }
      st := st.(sessions := st.sessions[sid := s.(role := Some(if s.scoped then Contributor else Reviewer))]);
      assert st == Demote(old(st), sid);
      var _ := Reconcile(s.ticket, s.uid, Some(sid), owner, rows, acked);
      return true;
    }
  }

  lemma ClaimIs(st: Store, sid: Sid, rows: seq<Mid>)
    requires sid in st.sessions && PoolRows(st, sid, rows)
    ensures Enabled(st, TicketRuns.ClaimPool(sid, rows)) <==>
              st.sessions[sid].role == Some(Owner) && Live(st.sessions[sid])
    ensures Enabled(st, TicketRuns.ClaimPool(sid, rows)) ==>
              Next(st, TicketRuns.ClaimPool(sid, rows)) == ApplyMoves(st, ClaimMoves(rows, sid), {})
    ensures rows != [] ==> st.sessions[sid].ticket.Some? && st.sessions[sid].uid.Some?
    ensures rows == [] ==> ApplyMoves(st, ClaimMoves(rows, sid), {}) == st
  {
    if rows != [] {
      assert rows[0] in rows;
      assert Pooled(st, rows[0], sid);
    }
  }

  lemma {:induction false} NobodyAcked(rows: seq<Mid>)
    ensures Unacked(rows, {}) == |rows|
  {
    if rows != [] { NobodyAcked(rows[..|rows| - 1]); }
  }
}
