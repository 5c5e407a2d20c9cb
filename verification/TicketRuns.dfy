/** Every run of ticket sessions and their mail. */
module TicketRuns {
  import opened Wrappers
  import opened Tickets

  datatype Action =
    | Create(sid: Sid, agent: string, ticket: Option<int>, uid: Option<int>, scoped: bool,
             requested: Requested, delegation: Option<Mode>, owner: Option<Sid>)
    | SetPaused(sid: Sid, paused: bool)
    | Complete(sid: Sid, rows: seq<Mid>, acked: set<Mid>)
    | Reap(sid: Sid)
    | Rescope(sid: Sid, scoped: bool)
    | Resurrect(sid: Sid, back: Back, other: Option<Sid>, owner: Option<Sid>, rows: seq<Mid>, acked: set<Mid>)
    | Send(mid: Mid, sender: Sid, handoff: Option<Hid>, owner: Option<Sid>)
    | Ack(mid: Mid)
    | ClaimPool(sid: Sid, rows: seq<Mid>)
    | Reconcile(onTicket: int, account: int, holder: Option<Sid>, owner: Option<Sid>, rows: seq<Mid>, acked: set<Mid>)

  /** How a reaped session comes back: a heartbeat reactivates it, a PATCH gives the status and leaves
      the reaper's mark. */
  datatype Back = ByHeartbeat | ByPatch(paused: bool)

  const Empty := Store(map[], map[], map[])

  function WithStatus(st: Store, sid: Sid, status: Status, auto: bool): Store
    requires sid in st.sessions
  {
    st.(sessions := st.sessions[sid := st.sessions[sid].(status := status, autoCompleted := auto)])
  }

  /** `yield_ownership_if_taken`, before its reconciliation. */
  function Demote(st: Store, sid: Sid): Store
    requires sid in st.sessions
  {
    var s := st.sessions[sid];
    st.(sessions := st.sessions[sid := s.(role := Some(if s.scoped then Contributor else Reviewer))])
  }

  predicate Demotes(st: Store, sid: Sid, other: Option<Sid>) {
    sid in st.sessions && st.sessions[sid].role == Some(Owner) && other.Some?
  }

  /** A ticket message in the pool, and the handoff it carries. */
  function Posted(st: Store, mid: Mid, sender: Sid, handoff: Option<Hid>): Store
    requires sender in st.sessions
  {
    st.(messages := st.messages[mid := Message(sender, true, st.sessions[sender].ticket, None, "", false, [], handoff)],
        handoffs := if handoff.Some? then st.handoffs[handoff.value := None] else st.handoffs)
  }

  /** `route_ticket_message` */
  function RouteMoves(st: Store, mid: Mid, sender: Sid, owner: Option<Sid>): seq<Move>
    requires sender in st.sessions
  {
    if st.sessions[sender].uid.None? || owner.None? then []
    else [Move(mid, None, owner, [Assigned(owner.value, OwnerRoute)])]
  }

  ghost predicate ReconcileEnabled(st: Store, ticket: int, uid: int, holder: Option<Sid>, owner: Option<Sid>,
                                   rows: seq<Mid>) {
    && IsOwnerAnswer(st.sessions, Some(ticket), Some(uid), None, owner)
    && Selects(rows, mid => Misplaced(st, mid, ticket, uid, holder))
  }

  ghost predicate YieldEnabled(st: Store, sid: Sid, other: Option<Sid>, owner: Option<Sid>, rows: seq<Mid>) {
    && sid in st.sessions && var s := st.sessions[sid];
    && IsOwnerAnswer(st.sessions, s.ticket, s.uid, Some(sid), other)
    && (Demotes(st, sid, other) && s.ticket.Some? && s.uid.Some? ==>
          ReconcileEnabled(Demote(st, sid), s.ticket.value, s.uid.value, Some(sid), owner, rows))
  }

  /** `yield_ownership_if_taken` */
  ghost function Yielded(st: Store, sid: Sid, other: Option<Sid>, owner: Option<Sid>, rows: seq<Mid>,
                         acked: set<Mid>): (r: Store)
    requires YieldEnabled(st, sid, other, owner, rows)
    ensures r.sessions == if Demotes(st, sid, other) then Demote(st, sid).sessions else st.sessions
  {
    var s := st.sessions[sid];
    if !Demotes(st, sid, other) then st
    else if s.ticket.None? || s.uid.None? then Demote(st, sid)
    else DoReconcile(Demote(st, sid), s.ticket.value, s.uid.value, Some(sid), owner, rows, acked)
  }

  ghost predicate Enabled(st: Store, a: Action) {
    match a
    case Create(sid, _, ticket, uid, _, _, _, owner) =>
      sid !in st.sessions && IsOwnerAnswer(st.sessions, ticket, uid, None, owner)
    case SetPaused(sid, paused) => sid in st.sessions && Live(st.sessions[sid])
    case Complete(sid, rows, _) =>
      && sid in st.sessions && !(st.sessions[sid].status == Completed && !st.sessions[sid].autoCompleted)
      && Selects(rows, mid => Unread(st, mid, sid))
    case Reap(sid) => sid in st.sessions && st.sessions[sid].status == Active
    case Rescope(sid, _) => sid in st.sessions
    case Resurrect(sid, _, other, owner, rows, _) =>
      && sid in st.sessions && st.sessions[sid].status == Completed && st.sessions[sid].autoCompleted
      && YieldEnabled(st, sid, other, owner, rows)
    case Send(mid, sender, handoff, owner) =>
      && mid !in st.messages && sender in st.sessions && st.sessions[sender].ticket.Some?
      && (handoff.Some? ==> handoff.value !in st.handoffs)
      && IsOwnerAnswer(st.sessions, st.sessions[sender].ticket, st.sessions[sender].uid, Some(sender), owner)
    case Ack(mid) => mid in st.messages && st.messages[mid].recipient.Some?
    case ClaimPool(sid, rows) =>
      && sid in st.sessions && st.sessions[sid].role == Some(Owner) && Live(st.sessions[sid])
      && Selects(rows, mid => Pooled(st, mid, sid))
    case Reconcile(ticket, uid, holder, owner, rows, _) => ReconcileEnabled(st, ticket, uid, holder, owner, rows)
  }

  ghost function DoReconcile(st: Store, ticket: int, uid: int, holder: Option<Sid>, owner: Option<Sid>,
                             rows: seq<Mid>, acked: set<Mid>): (r: Store)
    requires ReconcileEnabled(st, ticket, uid, holder, owner, rows)
    ensures r.sessions == st.sessions
  {
    RowsAreMisplaced(st, ticket, uid, holder, rows);
    ApplyMoves(st, ReconcileMoves(st, rows, owner, holder), acked)
  }

  lemma RowsAreMisplaced(st: Store, ticket: int, uid: int, holder: Option<Sid>, rows: seq<Mid>)
    requires Selects(rows, mid => Misplaced(st, mid, ticket, uid, holder))
    ensures forall k :: 0 <= k < |rows| ==> Misplaced(st, rows[k], ticket, uid, holder)
  {
    assert forall k :: 0 <= k < |rows| ==> rows[k] in rows;
  }

  ghost function Next(st: Store, a: Action): Store
    requires Enabled(st, a)
  {
    match a
    case Create(sid, agent, ticket, uid, scoped, requested, delegation, owner) =>
      var role := ResolveRole(ticket, requested, delegation, scoped, owner.Some?);
      if role.Err? then st
      else st.(sessions := st.sessions[sid := Session(agent, ticket, role.value, Active, uid, false, scoped)])
    case SetPaused(sid, paused) =>
      WithStatus(st, sid, if paused then Paused else Active, st.sessions[sid].autoCompleted)
    case Complete(sid, rows, acked) =>
      assert forall k :: 0 <= k < |rows| ==> rows[k] in rows;
      ApplyMoves(WithStatus(st, sid, Completed, false), ReleaseMoves(st, rows, sid), acked)
    case Reap(sid) => WithStatus(st, sid, Completed, true)
    case Rescope(sid, scoped) => st.(sessions := st.sessions[sid := st.sessions[sid].(scoped := scoped)])
    case Resurrect(sid, back, other, owner, rows, acked) =>
      WithStatus(Yielded(st, sid, other, owner, rows, acked), sid,
                 if back == ByPatch(true) then Paused else Active, back.ByPatch?)
    case Send(mid, sender, handoff, owner) =>
      var posted := Posted(st, mid, sender, handoff);
      ApplyMoves(posted, RouteMoves(posted, mid, sender, owner), {})
    case Ack(mid) => Acknowledge(st, mid)
    case ClaimPool(sid, rows) => ApplyMoves(st, ClaimMoves(rows, sid), {})
    case Reconcile(ticket, uid, holder, owner, rows, acked) => DoReconcile(st, ticket, uid, holder, owner, rows, acked)
  }

  ghost predicate IsRun(states: seq<Store>, steps: seq<Action>) {
    && |states| == |steps| + 1 && states[0] == Empty
    && forall i :: 0 <= i < |steps| ==> Enabled(states[i], steps[i]) && states[i + 1] == Next(states[i], steps[i])
  }

  // ---------------------------------------------------------------- invariants

  /** Each ticket has at most one live owner per account; only ticket sessions have a role. */
  ghost predicate SessionsInv(st: Store) {
    && (forall a, b, t, u :: Owns(st.sessions, a, t, u) && Owns(st.sessions, b, t, u) ==> a == b)
    && (forall sid :: sid in st.sessions ==> HasRole(st.sessions[sid]))
  }

  predicate HasRole(s: Session) {
    s.ticket.Some? <==> s.role.Some?
  }

  /** A contributor is scoped and a reviewer is not. */
  predicate RoleFits(s: Session) {
    && (s.role == Some(Contributor) ==> s.scoped)
    && (s.role == Some(Reviewer) ==> !s.scoped)
  }

  /** Ticket mail may go to `r`: a session of the ticket, in the sender's known account, not the sender. */
  predicate Addressable(st: Store, m: Message, r: Sid) {
    && r in st.sessions && m.sender in st.sessions && r != m.sender
    && st.sessions[r].uid.Some? && st.sessions[r].uid == st.sessions[m.sender].uid
    && st.sessions[r].ticket == m.ticket
  }

  predicate GoodMessage(st: Store, mid: Mid) {
    mid in st.messages && var m := st.messages[mid];
    && m.ticketMode && m.ticket.Some? && m.sender in st.sessions
    && Replay(m.history) == m.recipient && Alternates(m.history)
    && (m.recipient.Some? ==> Addressable(st, m, m.recipient.value))
    && m.recipientAgent == AgentOf(st, m.recipient)
    && (m.handoff.Some? ==> m.handoff.value in st.handoffs && st.handoffs[m.handoff.value] == m.recipient)
  }

  ghost predicate MailInv(st: Store) {
    && (forall mid :: mid in st.messages ==> GoodMessage(st, mid))
    && (forall a, b :: a in st.messages && b in st.messages && a != b && st.messages[a].handoff.Some? ==>
          st.messages[a].handoff != st.messages[b].handoff)
  }

  /** A log that hands the message out and takes it back from the same session, by turns. */
  predicate Alternates(history: seq<Delivery>) {
    && (forall k :: 0 <= k < |history| && k % 2 == 0 ==> history[k].Assigned?)
    && (forall k :: 0 < k < |history| && k % 2 == 1 ==> history[k].Released? && history[k].sid == history[k - 1].sid)
  }

  /** A move logs its release from where the message was, then its assignment to where it goes. */
  predicate EventsFit(mv: Move) {
    var gives := mv.to.Some?;
    && |mv.events| == (if mv.from.Some? then 1 else 0) + (if gives then 1 else 0) && mv.events != []
    && (mv.from.Some? ==> mv.events[0].Released? && mv.events[0].sid == mv.from.value)
    && (gives ==> mv.events[|mv.events| - 1].Assigned? && mv.events[|mv.events| - 1].sid == mv.to.value)
  }

  lemma AppendAlternates(history: seq<Delivery>, mv: Move)
    requires Alternates(history) && Replay(history) == mv.from && EventsFit(mv)
    ensures Alternates(history + mv.events) && Replay(history + mv.events) == mv.to
  {
    ReplayAppend(history, mv.events);
    var n := |history|;
    assert n > 0 ==> (n - 1) % 2 == 0 || (n - 1) % 2 == 1;
    assert n % 2 == if mv.from.Some? then 1 else 0;
  }

  /** A move that leaves the log and the address right. */
  predicate GoodMove(st: Store, mv: Move) {
    && mv.mid in st.messages && EventsFit(mv)
    && (mv.to.Some? ==> Addressable(st, st.messages[mv.mid], mv.to.value))
  }

  ghost predicate GoodMoves(st: Store, moves: seq<Move>) {
    forall k :: 0 <= k < |moves| ==> GoodMove(st, moves[k])
  }

  lemma MoveKeepsMail(st: Store, mv: Move)
    requires MailInv(st) && GoodMove(st, mv)
    ensures MailInv(ApplyMove(st, mv))
  {
    if Applies(st, mv) {
      forall mid | mid in st.messages ensures GoodMessage(ApplyMove(st, mv), mid) {
        assert GoodMessage(st, mid);
        MoveKeepsMessage(st, mv, mid);
      }
    }
  }

  lemma MoveKeepsMessage(st: Store, mv: Move, mid: Mid)
    requires GoodMove(st, mv) && Applies(st, mv) && GoodMessage(st, mid)
    requires mid != mv.mid && st.messages[mid].handoff.Some? ==> st.messages[mv.mid].handoff != st.messages[mid].handoff
    ensures GoodMessage(ApplyMove(st, mv), mid)
  {
    if mid == mv.mid { AppendAlternates(st.messages[mid].history, mv); }
  }

  lemma AckKeepsMail(st: Store, mid: Mid)
    requires MailInv(st)
    ensures MailInv(Acknowledge(st, mid))
  {
    forall m | m in st.messages ensures GoodMessage(Acknowledge(st, mid), m) {
      assert GoodMessage(st, m);
    }
  }

  lemma {:induction false} MovesKeepMail(st: Store, moves: seq<Move>, acked: set<Mid>)
    requires MailInv(st) && GoodMoves(st, moves)
    ensures MailInv(ApplyMoves(st, moves, acked))
    decreases |moves|
  {
    if moves != [] {
      var mv := moves[0];
      var st1 := if mv.mid in acked then Acknowledge(st, mv.mid) else st;
      assert GoodMove(st, mv);
      RowKeepsMail(st, mv, mv.mid in acked);
      forall k | 0 <= k < |moves| - 1 ensures GoodMove(ApplyMove(st1, mv), moves[1..][k]) {
        assert GoodMove(st, moves[k + 1]);
        MoveStaysGood(st, mv, mv.mid in acked, moves[k + 1]);
      }
      MovesKeepMail(ApplyMove(st1, mv), moves[1..], acked);
    }
  }

  lemma RowKeepsMail(st: Store, mv: Move, ack: bool)
    requires MailInv(st) && GoodMove(st, mv)
    ensures MailInv(ApplyMove(if ack then Acknowledge(st, mv.mid) else st, mv))
  {
    if ack { AckKeepsMail(st, mv.mid); }
    MoveKeepsMail(if ack then Acknowledge(st, mv.mid) else st, mv);
  }

  lemma MoveStaysGood(st: Store, mv: Move, ack: bool, other: Move)
    requires GoodMove(st, other)
    ensures GoodMove(ApplyMove(if ack then Acknowledge(st, mv.mid) else st, mv), other)
  {
  }

  /** Sessions may come, go live or end, and change role; who they are stays. */
  predicate SameIdentities(before: Store, after: Store) {
    && after.messages == before.messages && after.handoffs == before.handoffs
    && forall sid :: sid in before.sessions ==>
         && sid in after.sessions && after.sessions[sid].uid == before.sessions[sid].uid
         && after.sessions[sid].ticket == before.sessions[sid].ticket
         && after.sessions[sid].agent == before.sessions[sid].agent
  }

  lemma IdentitiesKeepMail(before: Store, after: Store)
    requires MailInv(before) && SameIdentities(before, after)
    ensures MailInv(after)
  {
    forall mid | mid in after.messages ensures GoodMessage(after, mid) {
      assert GoodMessage(before, mid);
    }
  }

  lemma ReconcileMovesGood(st: Store, ticket: int, uid: int, holder: Option<Sid>, owner: Option<Sid>, rows: seq<Mid>)
    requires ReconcileEnabled(st, ticket, uid, holder, owner, rows)
    ensures forall k :: 0 <= k < |rows| ==> rows[k] in st.messages && st.messages[rows[k]].recipient.Some?
    ensures GoodMoves(st, ReconcileMoves(st, rows, owner, holder))
  {
    RowsAreMisplaced(st, ticket, uid, holder, rows);
    forall k | 0 <= k < |rows| ensures GoodMove(st, ReconcileMove(st, rows[k], owner, holder)) {
      assert Misplaced(st, rows[k], ticket, uid, holder);
    }
  }

  lemma ReconcileKeepsMail(st: Store, ticket: int, uid: int, holder: Option<Sid>, owner: Option<Sid>, rows: seq<Mid>,
                           acked: set<Mid>)
    requires MailInv(st) && ReconcileEnabled(st, ticket, uid, holder, owner, rows)
    ensures MailInv(DoReconcile(st, ticket, uid, holder, owner, rows, acked))
  {
    ReconcileMovesGood(st, ticket, uid, holder, owner, rows);
    MovesKeepMail(st, ReconcileMoves(st, rows, owner, holder), acked);
  }

  lemma CompleteKeepsMail(st: Store, a: Action)
    requires MailInv(st) && a.Complete? && Enabled(st, a)
    ensures MailInv(Next(st, a))
  {
    var done := WithStatus(st, a.sid, Completed, false);
    IdentitiesKeepMail(st, done);
    assert forall k :: 0 <= k < |a.rows| ==> a.rows[k] in a.rows;
    forall k | 0 <= k < |a.rows| ensures GoodMove(done, ReleaseMove(st, a.rows[k], a.sid)) {
      assert a.rows[k] in a.rows && GoodMessage(st, a.rows[k]);
    }
    MovesKeepMail(done, ReleaseMoves(st, a.rows, a.sid), a.acked);
  }

  lemma YieldKeepsMail(st: Store, sid: Sid, other: Option<Sid>, owner: Option<Sid>, rows: seq<Mid>, acked: set<Mid>)
    requires MailInv(st) && YieldEnabled(st, sid, other, owner, rows)
    ensures MailInv(Yielded(st, sid, other, owner, rows, acked))
  {
    var s := st.sessions[sid];
    if Demotes(st, sid, other) {
      IdentitiesKeepMail(st, Demote(st, sid));
      if s.ticket.Some? && s.uid.Some? {
        ReconcileKeepsMail(Demote(st, sid), s.ticket.value, s.uid.value, Some(sid), owner, rows, acked);
      }
    }
  }

  lemma ResurrectKeepsMail(st: Store, a: Action)
    requires MailInv(st) && a.Resurrect? && Enabled(st, a)
    ensures MailInv(Next(st, a))
  {
    YieldKeepsMail(st, a.sid, a.other, a.owner, a.rows, a.acked);
    var yielded := Yielded(st, a.sid, a.other, a.owner, a.rows, a.acked);
    IdentitiesKeepMail(yielded,
      WithStatus(yielded, a.sid, if a.back == ByPatch(true) then Paused else Active, a.back.ByPatch?));
  }

  lemma PostedKeepsMail(st: Store, mid: Mid, sender: Sid, handoff: Option<Hid>)
    requires MailInv(st) && mid !in st.messages && sender in st.sessions && st.sessions[sender].ticket.Some?
    requires handoff.Some? ==> handoff.value !in st.handoffs
    ensures MailInv(Posted(st, mid, sender, handoff))
  {
    var posted := Posted(st, mid, sender, handoff);
    forall m | m in posted.messages ensures GoodMessage(posted, m) {
      assert m in st.messages ==> GoodMessage(st, m);
    }
    forall m, n | m in posted.messages && n in posted.messages && m != n && posted.messages[m].handoff.Some?
      ensures posted.messages[m].handoff != posted.messages[n].handoff
    {
      assert m in st.messages ==> GoodMessage(st, m);
      assert n in st.messages ==> GoodMessage(st, n);
    }
  }

  lemma SendKeepsMail(st: Store, a: Action)
    requires MailInv(st) && a.Send? && Enabled(st, a)
    ensures MailInv(Next(st, a))
  {
    PostedKeepsMail(st, a.mid, a.sender, a.handoff);
    var posted := Posted(st, a.mid, a.sender, a.handoff);
    MovesKeepMail(posted, RouteMoves(posted, a.mid, a.sender, a.owner), {});
  }

  lemma ClaimKeepsMail(st: Store, a: Action)
    requires MailInv(st) && a.ClaimPool? && Enabled(st, a)
    ensures MailInv(Next(st, a))
  {
    var moves := ClaimMoves(a.rows, a.sid);
    forall k | 0 <= k < |moves| ensures GoodMove(st, moves[k]) {
      assert a.rows[k] in a.rows && Pooled(st, a.rows[k], a.sid);
    }
    MovesKeepMail(st, moves, {});
  }

  lemma StepKeepsMail(st: Store, a: Action)
    requires MailInv(st) && Enabled(st, a)
    ensures MailInv(Next(st, a))
  {
    match a
    case Complete(_, _, _) => CompleteKeepsMail(st, a);
    case Resurrect(_, _, _, _, _, _) => ResurrectKeepsMail(st, a);
    case Send(_, _, _, _) => SendKeepsMail(st, a);
    case Ack(mid) => AckKeepsMail(st, mid);
    case ClaimPool(_, _) => ClaimKeepsMail(st, a);
    case Reconcile(t, u, h, o, rows, acked) => ReconcileKeepsMail(st, t, u, h, o, rows, acked);
    case _ => IdentitiesKeepMail(st, Next(st, a));
  }

  // ---------------------------------------------------------------- sessions

  predicate MayAsk(requested: Requested, role: Role) {
    requested == NotAsked || requested == Asked(role)
  }

  /** Exactly who becomes what: an owner only of an unowned ticket and never as a delegation child, a
      contributor only with a scope, a reviewer only without one; everyone else is refused. */
  lemma ResolvedRole(ticket: Option<int>, requested: Requested, delegation: Option<Mode>, scoped: bool, owned: bool)
    ensures var r := ResolveRole(ticket, requested, delegation, scoped, owned);
            && (r == Ok(None) <==> ticket.None? && requested == NotAsked)
            && (r == Ok(Some(Owner)) <==> ticket.Some? && delegation.None? && !owned && MayAsk(requested, Owner))
            && (r == Ok(Some(Contributor)) <==>
                  && ticket.Some? && scoped
                  && (if delegation.Some? then delegation == Some(Implement) && MayAsk(requested, Contributor)
                      else requested == Asked(Contributor) || (requested == NotAsked && owned)))
            && (r == Ok(Some(Reviewer)) <==>
                  && ticket.Some? && !scoped
                  && (if delegation.Some? then delegation != Some(Implement) && MayAsk(requested, Reviewer)
                      else requested == Asked(Reviewer) || (requested == NotAsked && owned)))
  {
  }

  /** Changing one session keeps ownership unique unless it takes what another owns. */
  lemma OneSessionChanged(before: Store, after: Store, sid: Sid)
    requires SessionsInv(before) && sid in after.sessions && HasRole(after.sessions[sid])
    requires forall s :: s in after.sessions && s != sid ==>
        s in before.sessions && before.sessions[s] == after.sessions[s]
    requires forall s, t, u :: Owns(after.sessions, sid, t, u) && Owns(before.sessions, s, t, u) ==> s == sid
    ensures SessionsInv(after)
  {
    assert forall s, t, u :: s != sid && Owns(after.sessions, s, t, u) ==> Owns(before.sessions, s, t, u);
  }

  lemma CreateKeepsSessions(st: Store, a: Action)
    requires SessionsInv(st) && a.Create? && Enabled(st, a)
    ensures SessionsInv(Next(st, a))
  {
    ResolvedRole(a.ticket, a.requested, a.delegation, a.scoped, a.owner.Some?);
    if ResolveRole(a.ticket, a.requested, a.delegation, a.scoped, a.owner.Some?).Ok? {
      OneSessionChanged(st, Next(st, a), a.sid);
    }
  }

  lemma ResurrectKeepsSessions(st: Store, a: Action)
    requires SessionsInv(st) && a.Resurrect? && Enabled(st, a)
    ensures SessionsInv(Next(st, a))
  {
    var was, now := st.sessions[a.sid], Next(st, a).sessions[a.sid];
    assert HasRole(was);
    assert now.ticket == was.ticket && now.uid == was.uid;
    assert now.role == Some(Owner) ==> was.role == Some(Owner) && a.other.None?;
    OneSessionChanged(st, Next(st, a), a.sid);
  }

  lemma EndKeepsSessions(before: Store, after: Store, sid: Sid)
    requires SessionsInv(before) && sid in before.sessions && sid in after.sessions
    requires exists auto :: after.sessions == WithStatus(before, sid, Completed, auto).sessions
    ensures SessionsInv(after)
  {
    assert HasRole(before.sessions[sid]);
    OneSessionChanged(before, after, sid);
  }

  lemma StepKeepsSessions(st: Store, a: Action)
    requires SessionsInv(st) && Enabled(st, a)
    ensures SessionsInv(Next(st, a))
  {
    match a
    case Create(_, _, _, _, _, _, _, _) => CreateKeepsSessions(st, a);
    case Resurrect(_, _, _, _, _, _) => ResurrectKeepsSessions(st, a);
    case SetPaused(sid, _) =>
      assert HasRole(st.sessions[sid]);
      assert forall t, u :: Owns(Next(st, a).sessions, sid, t, u) ==> Owns(st.sessions, sid, t, u);
      OneSessionChanged(st, Next(st, a), sid);
    case Rescope(sid, _) =>
      assert HasRole(st.sessions[sid]);
      assert forall t, u :: Owns(Next(st, a).sessions, sid, t, u) ==> Owns(st.sessions, sid, t, u);
      OneSessionChanged(st, Next(st, a), sid);
    case Complete(sid, _, _) => EndKeepsSessions(st, Next(st, a), sid);
    case Reap(sid) => EndKeepsSessions(st, Next(st, a), sid);
    case _ => assert Next(st, a).sessions == st.sessions;
  }

  lemma {:induction false} RunKeepsInv(states: seq<Store>, steps: seq<Action>, i: nat)
    requires IsRun(states, steps) && i < |states|
    ensures SessionsInv(states[i]) && MailInv(states[i])
  {
    if i > 0 {
      RunKeepsInv(states, steps, i - 1);
      StepKeepsSessions(states[i - 1], steps[i - 1]);
      StepKeepsMail(states[i - 1], steps[i - 1]);
    }
  }

  // ---------------------------------------------------------------- what a run guarantees

  /** A live owner, active or paused, of the ticket in one account. */
  predicate LiveOwner(st: Store, sid: Sid, ticket: int, uid: Option<int>) {
    && sid in st.sessions && st.sessions[sid].ticket == Some(ticket) && st.sessions[sid].role == Some(Owner)
    && (st.sessions[sid].status == Active || st.sessions[sid].status == Paused) && st.sessions[sid].uid == uid
  }

  /** The query answers with a live owner other than the excluded session, and with none only if there is
      none. */
  lemma OwnerIsFound(st: Store, ticket: Option<int>, uid: Option<int>, exclude: Option<Sid>, owner: Option<Sid>)
    ensures IsOwnerAnswer(st.sessions, ticket, uid, exclude, owner) <==>
              if owner.Some? then ticket.Some? && LiveOwner(st, owner.value, ticket.value, uid) && owner != exclude
              else ticket.Some? ==> forall s :: LiveOwner(st, s, ticket.value, uid) ==> exclude == Some(s)
  {
    if ticket.Some? {
      assert forall s :: LiveOwner(st, s, ticket.value, uid) <==> Owns(st.sessions, s, ticket.value, uid);
    }
  }

  /** Safety of ownership: in every reachable state a ticket has at most one live owner per account. */
  lemma OneLiveOwner(states: seq<Store>, steps: seq<Action>, i: nat, a: Sid, b: Sid, ticket: int, uid: Option<int>)
    requires IsRun(states, steps) && i < |states|
    requires LiveOwner(states[i], a, ticket, uid) && LiveOwner(states[i], b, ticket, uid)
    ensures a == b
  {
    RunKeepsInv(states, steps, i);
    assert Owns(states[i].sessions, a, ticket, uid) && Owns(states[i].sessions, b, ticket, uid);
  }

  /** A creation either is refused and changes nothing, or adds one active session as asked. */
  lemma CreatedSession(st: Store, a: Action)
    requires a.Create? && Enabled(st, a)
    ensures var taken := a.ticket.Some? && exists o :: LiveOwner(st, o, a.ticket.value, a.uid);
            var role := ResolveRole(a.ticket, a.requested, a.delegation, a.scoped, taken);
            if role.Err? then Next(st, a) == st
            else Next(st, a) == Store(st.sessions[a.sid := Session(a.agent, a.ticket, role.value, Active, a.uid, false,
                                                                   a.scoped)], st.messages, st.handoffs)
  {
    OwnerIsFound(st, a.ticket, a.uid, None, a.owner);
    if a.ticket.None? { ResolvedRole(a.ticket, a.requested, a.delegation, a.scoped, a.owner.Some?); }
  }

  /** Pausing, completing and reaping change one session's status, and only the reaper marks it as its own. */
  lemma StatusSteps(st: Store, a: Action)
    requires (a.SetPaused? || a.Complete? || a.Reap?) && Enabled(st, a)
    ensures var was, s := st.sessions[a.sid], Next(st, a).sessions[a.sid];
            && s.ticket == was.ticket && s.role == was.role && s.uid == was.uid && s.scoped == was.scoped
            && s.agent == was.agent
            && (a.SetPaused? ==>
               s.status == (if a.paused then Paused else Active) && s.autoCompleted == was.autoCompleted)
            && (a.Complete? ==> s.status == Completed && s.autoCompleted == false)
            && (a.Reap? ==> s.status == Completed && s.autoCompleted == true)
    ensures Next(st, a).sessions.Keys == st.sessions.Keys
    ensures forall sid :: sid in st.sessions && sid != a.sid ==> Next(st, a).sessions[sid] == st.sessions[sid]
    ensures !a.Complete? ==> Next(st, a).messages == st.messages && Next(st, a).handoffs == st.handoffs
  {
  }

  /** A reaped session that comes back is live again, and keeps its ticket, account and scope. If it owned
      its ticket it still does, unless another live owner took it meanwhile: then it goes on as a contributor
      if it is scoped, as a reviewer if not. */
  lemma ReturningSession(st: Store, a: Action)
    requires a.Resurrect? && Enabled(st, a)
    ensures var was, s := st.sessions[a.sid], Next(st, a).sessions[a.sid];
            var taken := was.role == Some(Owner) && was.ticket.Some?
                         && exists o :: o != a.sid && LiveOwner(st, o, was.ticket.value, was.uid);
            && s.role == (if taken then Some(if was.scoped then Contributor else Reviewer) else was.role)
            && s.status == (if a.back == ByPatch(true) then Paused else Active)
            && s.ticket == was.ticket && s.uid == was.uid && s.scoped == was.scoped && s.agent == was.agent
    ensures forall sid :: sid != a.sid ==>
              (sid in Next(st, a).sessions <==> sid in st.sessions)
              && (sid in st.sessions ==> Next(st, a).sessions[sid] == st.sessions[sid])
  {
    var was := st.sessions[a.sid];
    OwnerIsFound(st, was.ticket, was.uid, Some(a.sid), a.other);
  }

  /** Roles fit scopes where they are given: at creation, and when a returning owner is demoted. */
  lemma RolesFitWhenGiven(states: seq<Store>, steps: seq<Action>, i: nat)
    requires IsRun(states, steps) && i < |steps|
    ensures steps[i].Create? && steps[i].sid in states[i + 1].sessions ==>
        RoleFits(states[i + 1].sessions[steps[i].sid])
    ensures steps[i].Resurrect? && Demotes(states[i], steps[i].sid, steps[i].other) ==>
              var s := states[i + 1].sessions[steps[i].sid];
              RoleFits(s) && (s.role == Some(Contributor) || s.role == Some(Reviewer))
  {
    var st, a := states[i], steps[i];
    if a.Create? {
      ResolvedRole(a.ticket, a.requested, a.delegation, a.scoped, a.owner.Some?);
    }
  }

  lemma StepKeepsFit(st: Store, a: Action, sid: Sid)
    requires Enabled(st, a) && sid in st.sessions && RoleFits(st.sessions[sid])
    requires a.Rescope? && a.sid == sid ==> a.scoped == st.sessions[sid].scoped
    ensures sid in Next(st, a).sessions && RoleFits(Next(st, a).sessions[sid])
  {
  }

  /** From then on they fit for as long as nobody changes whether the session is scoped. */
  lemma {:induction false} RolesFitUntilRescoped(states: seq<Store>, steps: seq<Action>, i: nat, j: nat, sid: Sid)
    requires IsRun(states, steps) && i <= j < |states| && sid in states[i].sessions && RoleFits(states[i].sessions[sid])
    requires forall k :: i <= k < j && steps[k].Rescope? && steps[k].sid == sid ==>
               sid in states[k].sessions && steps[k].scoped == states[k].sessions[sid].scoped
    ensures sid in states[j].sessions && RoleFits(states[j].sessions[sid])
  {
    if i < j {
      RolesFitUntilRescoped(states, steps, i, j - 1, sid);
      StepKeepsFit(states[j - 1], steps[j - 1], sid);
    }
  }

  predicate Joined(s: Session) {
    s.role == Some(Contributor) || s.role == Some(Reviewer)
  }

  lemma StepKeepsJoined(st: Store, a: Action, sid: Sid)
    requires Enabled(st, a) && sid in st.sessions && Joined(st.sessions[sid])
    ensures sid in Next(st, a).sessions && Next(st, a).sessions[sid].role == st.sessions[sid].role
    ensures !(a.Rescope? && a.sid == sid) ==> Next(st, a).sessions[sid].scoped == st.sessions[sid].scoped
  {
  }

  /** Exactly so for a contributor or reviewer: it keeps its role, and the role fits its scope in just
      the states in which it is scoped as it was. */
  lemma {:induction false} JoinedRoleFits(states: seq<Store>, steps: seq<Action>, i: nat, j: nat, sid: Sid)
    requires IsRun(states, steps) && i <= j < |states| && sid in states[i].sessions
    requires Joined(states[i].sessions[sid]) && RoleFits(states[i].sessions[sid])
    ensures sid in states[j].sessions && states[j].sessions[sid].role == states[i].sessions[sid].role
    ensures RoleFits(states[j].sessions[sid]) <==> states[j].sessions[sid].scoped == states[i].sessions[sid].scoped
  {
    if i == j {
    } else {
      JoinedRoleFits(states, steps, i, j - 1, sid);
      StepKeepsJoined(states[j - 1], steps[j - 1], sid);
    }
  }

  /** A PATCH is always possible, and one that changes whether the session is scoped breaks the fit: it
      rewrites the scope without looking at the role. */
  lemma RescopeBreaksFit(st: Store, sid: Sid, scoped: bool)
    requires sid in st.sessions && Joined(st.sessions[sid]) && RoleFits(st.sessions[sid])
    ensures Enabled(st, Rescope(sid, scoped))
    ensures RoleFits(Next(st, Rescope(sid, scoped)).sessions[sid]) <==> scoped == st.sessions[sid].scoped
  {
  }

  /** Such a run, from the start. */
  lemma RescopedContributor(sid: Sid) returns (states: seq<Store>, steps: seq<Action>)
    ensures IsRun(states, steps) && sid in states[|steps|].sessions
    ensures var s := states[|steps|].sessions[sid]; s.status == Active && s.role == Some(Contributor) && !s.scoped
  {
    var create := Create(sid, "agent", Some(1), Some(1000), true, Asked(Contributor), None, None);
    var rescope := Rescope(sid, false);
    var one := Next(Empty, create);
    states, steps := [Empty, one, Next(one, rescope)], [create, rescope];
  }

  /** The delivery log is the truth: it hands the message out and takes it back by turns, and
      replaying it gives the recipient, who is a session of the ticket in the sender's own account and
      not the sender; the linked handoff agrees. */
  lemma LogGivesRecipient(states: seq<Store>, steps: seq<Action>, i: nat, mid: Mid)
    requires IsRun(states, steps) && i < |states| && mid in states[i].messages
    ensures var st := states[i]; var m := st.messages[mid];
            && Replay(m.history) == m.recipient && Alternates(m.history)
            && (m.recipient.Some? ==> Addressable(st, m, m.recipient.value))
            && m.recipientAgent == (if m.recipient.Some? then st.sessions[m.recipient.value].agent else "")
            && (m.handoff.Some? ==> m.handoff.value in st.handoffs && st.handoffs[m.handoff.value] == m.recipient)
  {
    RunKeepsInv(states, steps, i);
    assert GoodMessage(states[i], mid);
  }

  /** What one step may do to a message: an acknowledged one stays, and the log only grows. */
  predicate Follows(before: Message, after: Message) {
    && (before.acknowledged ==> after == before)
    && before.history <= after.history
    && after.sender == before.sender && after.ticket == before.ticket && after.handoff == before.handoff
  }

  lemma {:induction false} MovesFollow(st: Store, moves: seq<Move>, acked: set<Mid>, mid: Mid)
    requires mid in st.messages
    ensures Follows(st.messages[mid], ApplyMoves(st, moves, acked).messages[mid])
    decreases |moves|
  {
    if moves != [] {
      var mv := moves[0];
      var st1 := ApplyMove(if mv.mid in acked then Acknowledge(st, mv.mid) else st, mv);
      assert Follows(st.messages[mid], st1.messages[mid]);
      MovesFollow(st1, moves[1..], acked, mid);
    }
  }

  lemma StepFollows(st: Store, a: Action, mid: Mid)
    requires Enabled(st, a) && mid in st.messages
    ensures mid in Next(st, a).messages && Follows(st.messages[mid], Next(st, a).messages[mid])
  {
    match a
    case Complete(sid, rows, acked) =>
      assert forall k :: 0 <= k < |rows| ==> rows[k] in rows;
      MovesFollow(WithStatus(st, sid, Completed, false), ReleaseMoves(st, rows, sid), acked, mid);
    case Resurrect(sid, _, other, owner, rows, acked) =>
      YieldFollows(st, sid, other, owner, rows, acked, mid);
    case Send(posting, sender, handoff, owner) =>
      var posted := Posted(st, posting, sender, handoff);
      MovesFollow(posted, RouteMoves(posted, posting, sender, owner), {}, mid);
    case ClaimPool(sid, rows) => MovesFollow(st, ClaimMoves(rows, sid), {}, mid);
    case Reconcile(t, u, h, o, rows, acked) => ReconcileFollows(st, t, u, h, o, rows, acked, mid);
    case _ =>
  }

  lemma ReconcileFollows(st: Store, ticket: int, uid: int, holder: Option<Sid>, owner: Option<Sid>, rows: seq<Mid>,
                         acked: set<Mid>, mid: Mid)
    requires ReconcileEnabled(st, ticket, uid, holder, owner, rows) && mid in st.messages
    ensures Follows(st.messages[mid], DoReconcile(st, ticket, uid, holder, owner, rows, acked).messages[mid])
  {
    RowsAreMisplaced(st, ticket, uid, holder, rows);
    MovesFollow(st, ReconcileMoves(st, rows, owner, holder), acked, mid);
  }

  lemma YieldFollows(st: Store, sid: Sid, other: Option<Sid>, owner: Option<Sid>, rows: seq<Mid>, acked: set<Mid>,
                     mid: Mid)
    requires YieldEnabled(st, sid, other, owner, rows) && mid in st.messages
    ensures mid in Yielded(st, sid, other, owner, rows, acked).messages
    ensures Follows(st.messages[mid], Yielded(st, sid, other, owner, rows, acked).messages[mid])
  {
    var s := st.sessions[sid];
    if Demotes(st, sid, other) && s.ticket.Some? && s.uid.Some? {
      ReconcileFollows(Demote(st, sid), s.ticket.value, s.uid.value, Some(sid), owner, rows, acked, mid);
    }
  }

  lemma FollowsTrans(a: Message, b: Message, c: Message)
    requires Follows(a, b) && Follows(b, c)
    ensures Follows(a, c)
  {
  }

  lemma RunStepFollows(states: seq<Store>, steps: seq<Action>, i: nat, mid: Mid)
    requires IsRun(states, steps) && i < |steps| && mid in states[i].messages
    ensures mid in states[i + 1].messages && Follows(states[i].messages[mid], states[i + 1].messages[mid])
  {
    StepFollows(states[i], steps[i], mid);
  }

  /** An acknowledged message never moves again; no log entry is ever lost. */
  lemma {:induction false} MessagesFollow(states: seq<Store>, steps: seq<Action>, i: nat, j: nat, mid: Mid)
    requires IsRun(states, steps) && i <= j < |states| && mid in states[i].messages
    ensures mid in states[j].messages && Follows(states[i].messages[mid], states[j].messages[mid])
  {
    if i == j {
    } else {
      MessagesFollow(states, steps, i, j - 1, mid);
      RunStepFollows(states, steps, j - 1, mid);
      FollowsTrans(states[i].messages[mid], states[j - 1].messages[mid], states[j].messages[mid]);
    }
  }

  // ---------------------------------------------------------------- reconciliation

  predicate DistinctMoves(moves: seq<Move>) {
    forall i, j :: 0 <= i < j < |moves| ==> moves[i].mid != moves[j].mid
  }

  function Moved(st: Store, mv: Move): Message
    requires mv.mid in st.messages
  {
    var m := st.messages[mv.mid];
    m.(recipient := mv.to, recipientAgent := AgentOf(st, mv.to), history := m.history + mv.events)
  }

  /** Messages outside a batch are untouched. */
  lemma {:induction false} MovesLeave(st: Store, moves: seq<Move>, acked: set<Mid>, mid: Mid)
    requires mid in st.messages && forall k :: 0 <= k < |moves| ==> moves[k].mid != mid
    ensures ApplyMoves(st, moves, acked).messages[mid] == st.messages[mid]
    decreases |moves|
  {
    if moves != [] {
      var mv := moves[0];
      MovesLeave(ApplyMove(if mv.mid in acked then Acknowledge(st, mv.mid) else st, mv), moves[1..], acked, mid);
    }
  }

  /** Each row of a batch ends moved, or acknowledged where it was. */
  lemma {:induction false} MovesMove(st: Store, moves: seq<Move>, acked: set<Mid>, k: nat)
    requires DistinctMoves(moves) && k < |moves| && Applies(st, moves[k])
    ensures var mid := moves[k].mid;
            ApplyMoves(st, moves, acked).messages[mid] ==
              if mid in acked && st.messages[mid].recipient.Some? then st.messages[mid].(acknowledged := true)
              else Moved(st, moves[k])
    decreases |moves|
  {
    var mv, mid := moves[0], moves[k].mid;
    var st1 := ApplyMove(if mv.mid in acked then Acknowledge(st, mv.mid) else st, mv);
    if k == 0 {
      MovesLeave(st1, moves[1..], acked, mid);
    } else {
      assert moves[1..][k - 1] == moves[k] && mv.mid != mid;
      assert st1.messages[mid] == st.messages[mid];
      MovesMove(st1, moves[1..], acked, k - 1);
    }
  }

  /** Unread general mail of the ticket, sent within the account. */
  predicate UnreadMail(st: Store, mid: Mid, ticket: int, uid: int) {
    && mid in st.messages && st.messages[mid].ticketMode && !st.messages[mid].acknowledged
    && st.messages[mid].ticket == Some(ticket) && st.messages[mid].sender in st.sessions
    && st.sessions[st.messages[mid].sender].uid == Some(uid)
  }

  /** A session that has to give it up: a live contributor or reviewer, one that explicitly completed its
      role, or the one named. */
  predicate GivesUp(st: Store, sid: Sid, holder: Option<Sid>) {
    sid in st.sessions && var s := st.sessions[sid];
    || holder == Some(sid)
    || (s.status in [Active, Paused] && s.role in [Some(Contributor), Some(Reviewer)])
    || (s.status == Completed && s.autoCompleted == false && s.role != None)
  }

  predicate MustMove(st: Store, mid: Mid, ticket: int, uid: int, holder: Option<Sid>) {
    && UnreadMail(st, mid, ticket, uid) && st.messages[mid].recipient.Some?
    && GivesUp(st, st.messages[mid].recipient.value, holder)
  }

  lemma MustMoveIsMisplaced(st: Store, mid: Mid, ticket: int, uid: int, holder: Option<Sid>)
    ensures Misplaced(st, mid, ticket, uid, holder) <==> MustMove(st, mid, ticket, uid, holder)
  {
  }

  lemma MovedIs(st: Store, mid: Mid, owner: Option<Sid>, holder: Option<Sid>, ticket: int, uid: int)
    requires MustMove(st, mid, ticket, uid, holder) && (owner.Some? ==> owner.value in st.sessions)
    ensures Moved(st, ReconcileMove(st, mid, owner, holder)) == Rerouted(st, st.messages[mid], owner, holder)
  {
  }

  /** A message taken from its holder. It goes to the owner unless the owner sent it, else to the pool, and
      its log gains the release and the assignment; "recipient completed" is the reason exactly for a
      holder, other than the one named, that completed. */
  function Rerouted(st: Store, was: Message, owner: Option<Sid>, holder: Option<Sid>): Message
    requires was.recipient.Some? && was.recipient.value in st.sessions
    requires owner.Some? ==> owner.value in st.sessions
  {
    var from := was.recipient.value;
    var reason := if st.sessions[from].status == Completed && holder != Some(from) then RecipientCompleted
                  else NotOwner;
    if owner.Some? && owner.value != was.sender
    then was.(recipient := owner, recipientAgent := st.sessions[owner.value].agent,
              history := was.history + [Released(from, reason), Assigned(owner.value, OwnerRoute)])
    else was.(recipient := None, recipientAgent := "", history := was.history + [Released(from, reason)])
  }

  /** What a reconciliation makes of each message: untouched, acknowledged where it was, or rerouted. */
  lemma ReconciledMessage(st: Store, ticket: int, uid: int, holder: Option<Sid>, owner: Option<Sid>, rows: seq<Mid>,
                          acked: set<Mid>, mid: Mid)
    requires ReconcileEnabled(st, ticket, uid, holder, owner, rows) && mid in st.messages
    ensures var m := DoReconcile(st, ticket, uid, holder, owner, rows, acked).messages[mid];
            var was := st.messages[mid];
            if !MustMove(st, mid, ticket, uid, holder) then m == was
            else if mid in acked then m == was.(acknowledged := true)
            else m == Rerouted(st, was, owner, holder)
  {
    MustMoveIsMisplaced(st, mid, ticket, uid, holder);
    RowsAreMisplaced(st, ticket, uid, holder, rows);
    var moves := ReconcileMoves(st, rows, owner, holder);
    assert forall k :: 0 <= k < |moves| ==> moves[k].mid == rows[k];
    assert forall k :: 0 <= k < |moves| ==> Misplaced(st, rows[k], ticket, uid, holder);
    if Misplaced(st, mid, ticket, uid, holder) {
      assert mid in rows;
      var k :| 0 <= k < |rows| && rows[k] == mid;
      MovesMove(st, moves, acked, k);
      MovedIs(st, mid, owner, holder, ticket, uid);
    } else {
      MovesLeave(st, moves, acked, mid);
    }
  }

  /** After a reconciliation none of that ticket's unread general mail is held by a session that may
      not hold it, so reconciling again moves nothing. The session named as `holder` must not be the
      owner the mail goes to. */
  lemma ReconcileSettles(st: Store, ticket: int, uid: int, holder: Option<Sid>, owner: Option<Sid>, rows: seq<Mid>,
                         acked: set<Mid>,
                         again: seq<Mid>, ackedAgain: set<Mid>)
    requires ReconcileEnabled(st, ticket, uid, holder, owner, rows)
    requires owner.Some? ==> holder != owner
    ensures var after := DoReconcile(st, ticket, uid, holder, owner, rows, acked);
            && (forall mid :: !MustMove(after, mid, ticket, uid, holder))
            && (ReconcileEnabled(after, ticket, uid, holder, owner, again) ==>
                  again == [] && DoReconcile(after, ticket, uid, holder, owner, again, ackedAgain) == after)
  {
    var after := DoReconcile(st, ticket, uid, holder, owner, rows, acked);
    forall mid ensures !MustMove(after, mid, ticket, uid, holder) && !Misplaced(after, mid, ticket, uid, holder) {
      MustMoveIsMisplaced(after, mid, ticket, uid, holder);
      if mid in st.messages {
        ReconciledMessage(st, ticket, uid, holder, owner, rows, acked, mid);
      }
    }
    assert again != [] ==> again[0] in again;
  }

  /** A session may claim the pool exactly when it is an owner, active or paused. */
  lemma OwnerMayClaim(st: Store, sid: Sid, rows: seq<Mid>)
    requires Selects(rows, mid => Pooled(st, mid, sid))
    ensures Enabled(st, ClaimPool(sid, rows)) <==>
              && sid in st.sessions && st.sessions[sid].role == Some(Owner)
              && st.sessions[sid].status in [Active, Paused]
  {
  }

  /** The owner's next `claim_pool` leaves no other sender's mail of the account in the pool, and all
      of it is then held by sessions that may hold it. */
  lemma OwnerCollects(st: Store, ticket: int, uid: int, holder: Option<Sid>, owner: Sid, rows: seq<Mid>,
                      acked: set<Mid>,
                      pool: seq<Mid>, mid: Mid)
    requires ReconcileEnabled(st, ticket, uid, holder, Some(owner), rows) && holder != Some(owner)
    requires var after := DoReconcile(st, ticket, uid, holder, Some(owner), rows, acked);
             && Enabled(after, ClaimPool(owner, pool))
             && UnreadMail(Next(after, ClaimPool(owner, pool)), mid, ticket, uid)
             && Next(after, ClaimPool(owner, pool)).messages[mid].sender != owner
    ensures var after := DoReconcile(st, ticket, uid, holder, Some(owner), rows, acked);
            var last := Next(after, ClaimPool(owner, pool));
            last.messages[mid].recipient.Some? && !GivesUp(last, last.messages[mid].recipient.value, holder)
  {
    var after := DoReconcile(st, ticket, uid, holder, Some(owner), rows, acked);
    ReconcileSettles(st, ticket, uid, holder, Some(owner), rows, acked, [], {});
    ClaimedMessage(after, owner, pool, mid);
    assert !MustMove(after, mid, ticket, uid, holder);
  }

  /** A pool claim takes exactly the unread mail of the owner's ticket and account that is in the pool and
      that others sent. */

  lemma ClaimedMessage(st: Store, sid: Sid, rows: seq<Mid>, mid: Mid)
    requires Enabled(st, ClaimPool(sid, rows)) && mid in st.messages
    ensures var m := Next(st, ClaimPool(sid, rows)).messages[mid];
            var was, s := st.messages[mid], st.sessions[sid];
            m == if s.ticket.Some? && s.uid.Some? && UnreadMail(st, mid, s.ticket.value, s.uid.value)
                    && was.recipient.None? && was.sender != sid
                 then was.(recipient := Some(sid), recipientAgent := s.agent,
                           history := was.history + [Assigned(sid, TicketClaim)])
                 else was
  {
    var moves := ClaimMoves(rows, sid);
    assert forall k :: 0 <= k < |moves| ==> moves[k].mid == rows[k] && rows[k] in rows;
    if Pooled(st, mid, sid) {
      assert mid in rows;
      var k :| 0 <= k < |rows| && rows[k] == mid;
      MovesMove(st, moves, {}, k);
    } else {
      MovesLeave(st, moves, {}, mid);
    }
  }

  /** A ticket message is addressed at send time to the live owner of the sender's account, and waits
      in the pool when there is none or the account is unknown. */
  lemma SentToOwner(st: Store, a: Action)
    requires a.Send? && Enabled(st, a)
    ensures var m := Next(st, a).messages[a.mid];
            && m.recipient == (if st.sessions[a.sender].uid.Some? then a.owner else None)
            && m.ticket == st.sessions[a.sender].ticket && !m.acknowledged
            && m.sender == a.sender && m.ticketMode && m.handoff == a.handoff
            && (m.recipient.Some? ==> LiveOwner(st, m.recipient.value, m.ticket.value, st.sessions[a.sender].uid))
            && (m.recipient.None? ==>
                  st.sessions[a.sender].uid.None?
                  || forall s :: LiveOwner(st, s, m.ticket.value, st.sessions[a.sender].uid) ==> s == a.sender)
  {
    OwnerIsFound(st, st.sessions[a.sender].ticket, st.sessions[a.sender].uid, Some(a.sender), a.owner);
    var posted := Posted(st, a.mid, a.sender, a.handoff);
    var moves := RouteMoves(posted, a.mid, a.sender, a.owner);
    if moves != [] {
      assert moves[1..] == [];
      assert ApplyMoves(posted, moves, {}) == ApplyMove(posted, moves[0]);
    }
  }

  lemma SelectedUnread(st: Store, rows: seq<Mid>, sid: Sid)
    requires Selects(rows, mid => Unread(st, mid, sid))
    ensures forall k :: 0 <= k < |rows| ==> rows[k] in rows && Unread(st, rows[k], sid)
    ensures forall mid :: mid in st.messages && Unread(st, mid, sid) ==> mid in rows
  {
    assert forall k :: 0 <= k < |rows| ==> rows[k] in rows;
  }

  /** A message back in the pool after its recipient completed; one with no log was never logged as given. */
  function BackInPool(was: Message, sid: Sid): Message {
    var given := if was.history == [] then [Assigned(sid, LegacyClaim)] else [];
    was.(recipient := None, recipientAgent := "", history := was.history + given + [Released(sid, RecipientCompleted)])
  }

  lemma ReleasedIs(done: Store, st: Store, mid: Mid, sid: Sid)
    requires mid in st.messages && done.messages == st.messages
    ensures Moved(done, ReleaseMove(st, mid, sid)) == BackInPool(st.messages[mid], sid)
  {
    var was := st.messages[mid];
    var given := if was.history == [] then [Assigned(sid, LegacyClaim)] else [];
    assert was.history + given + [Released(sid, RecipientCompleted)]
        == was.history + (given + [Released(sid, RecipientCompleted)]);
  }

  /** An explicit completion leaves the session no unread ticket mail: each such message goes to the pool,
      logged as released by a completed recipient, unless it is acknowledged first. Other mail stays. */
  lemma CompletedHoldsNothing(st: Store, a: Action, mid: Mid)
    requires a.Complete? && Enabled(st, a)
    ensures mid in Next(st, a).messages ==>
              var m := Next(st, a).messages[mid];
              !(m.ticketMode && m.recipient == Some(a.sid) && m.acknowledged == false)
    ensures mid in st.messages ==>
              mid in Next(st, a).messages &&
              var was, m := st.messages[mid], Next(st, a).messages[mid];
              if !(was.ticketMode && was.recipient == Some(a.sid) && was.acknowledged == false) then m == was
              else if mid in a.acked then m == was.(acknowledged := true)
              else m == BackInPool(was, a.sid)
  {
    if mid in st.messages {
      var done := WithStatus(st, a.sid, Completed, false);
      SelectedUnread(st, a.rows, a.sid);
      var moves := ReleaseMoves(st, a.rows, a.sid);
      if Unread(st, mid, a.sid) {
        var k :| 0 <= k < |a.rows| && a.rows[k] == mid;
        MovesMove(done, moves, a.acked, k);
        ReleasedIs(done, st, mid, a.sid);
      } else {
        MovesLeave(done, moves, a.acked, mid);
      }
    }
  }
}
