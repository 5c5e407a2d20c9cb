/** Ticket roles and the owner-routed ticket mailbox: ticket_roles.py and message_lifecycle.py. */
module Tickets {
  import opened Wrappers

  type Sid = string
  type Mid = string
  type Hid = string

  datatype Role = Owner | Contributor | Reviewer
  datatype Status = Active | Paused | Completed

  /** `scoped`: the session declared a non-empty file scope. `uid`: the OS account, None if unknown. */
  datatype Session = Session(agent: string, ticket: Option<int>, role: Option<Role>, status: Status,
                             uid: Option<int>, autoCompleted: bool, scoped: bool)

  datatype Reason = OwnerRoute | TicketClaim | NotOwner | RecipientCompleted | LegacyClaim

  datatype Delivery = Assigned(sid: Sid, reason: Reason) | Released(sid: Sid, reason: Reason)

  datatype Message = Message(sender: Sid, ticketMode: bool, ticket: Option<int>, recipient: Option<Sid>,
                             recipientAgent: string, acknowledged: bool, history: seq<Delivery>, handoff: Option<Hid>)

  /** `handoffs`: each handoff's recipient. */
  datatype Store = Store(sessions: map<Sid, Session>, messages: map<Mid, Message>, handoffs: map<Hid, Option<Sid>>)

  predicate Live(s: Session) {
    s.status == Active || s.status == Paused
  }

  // ---------------------------------------------------------------- ownership

  /** A live owner of the ticket in one account; an unknown account is an account of its own. */
  predicate Owns(sessions: map<Sid, Session>, sid: Sid, ticket: int, uid: Option<int>) {
    sid in sessions && var s := sessions[sid];
    s.ticket == Some(ticket) && s.role == Some(Owner) && Live(s) && s.uid == uid
  }

  /** An answer to the `live_owner` query. */
  ghost predicate IsOwnerAnswer(sessions: map<Sid, Session>, ticket: Option<int>, uid: Option<int>,
                                exclude: Option<Sid>, owner: Option<Sid>) {
    match owner
    case Some(o) => ticket.Some? && Owns(sessions, o, ticket.value, uid) && exclude != Some(o)
    case None => ticket.Some? ==> forall s :: Owns(sessions, s, ticket.value, uid) ==> exclude == Some(s)
  }

  datatype Mode = ReadOnly | Implement | Verify

  datatype Requested = NotAsked | Asked(role: Role) | AskedUnknown

  datatype Refusal =
    | RoleRequiresTicket | RoleFixedByDelegation | TicketOwned | BadTicketRole
    | ReviewerClaimsNothing | ContributorNeedsScope

  function RoleForChild(mode: Mode): Role {
    if mode == Implement then Contributor else Reviewer
  }

  function CheckScope(role: Role, scoped: bool): Result<Option<Role>, Refusal> {
    if role == Reviewer && scoped then Err(ReviewerClaimsNothing)
    else if role == Contributor && !scoped then Err(ContributorNeedsScope)
    else Ok(Some(role))
  }

  /** `resolve_role`, given whether the ticket has a live owner in the creator's account. */
  function ResolveRole(ticket: Option<int>, requested: Requested, delegation: Option<Mode>,
                       scoped: bool, owned: bool): Result<Option<Role>, Refusal> {
    if ticket.None? then (if requested == NotAsked then Ok(None) else Err(RoleRequiresTicket))
    else if delegation.Some? then
      var role := RoleForChild(delegation.value);
      if requested != NotAsked && requested != Asked(role) then Err(RoleFixedByDelegation)
      else CheckScope(role, scoped)
    else
      match requested
      case Asked(Owner) => if owned then Err(TicketOwned) else CheckScope(Owner, scoped)
      case Asked(role) => CheckScope(role, scoped)
      case AskedUnknown => Err(BadTicketRole)
      case NotAsked =>
        if !owned then CheckScope(Owner, scoped)
        else CheckScope(if scoped then Contributor else Reviewer, scoped)
  }

  // ---------------------------------------------------------------- moving mail

  /** One compare-and-set: the message leaves `from` for `to`, and its log gains `events`. */
  datatype Move = Move(mid: Mid, from: Option<Sid>, to: Option<Sid>, events: seq<Delivery>)

  function AgentOf(st: Store, sid: Option<Sid>): string {
    if sid.Some? && sid.value in st.sessions then st.sessions[sid.value].agent else ""
  }

  predicate Applies(st: Store, mv: Move) {
    mv.mid in st.messages && st.messages[mv.mid].recipient == mv.from && !st.messages[mv.mid].acknowledged
  }

  function ApplyMove(st: Store, mv: Move): Store {
    if !Applies(st, mv) then st
    else
      var m := st.messages[mv.mid];
      st.(messages := st.messages[mv.mid := m.(recipient := mv.to, recipientAgent := AgentOf(st, mv.to),
                                               history := m.history + mv.events)],
          handoffs := if m.handoff.Some? && m.handoff.value in st.handoffs then st.handoffs[m.handoff.value := mv.to]
                      else st.handoffs)
  }

  /** Its current recipient acknowledges a message. */
  function Acknowledge(st: Store, mid: Mid): Store {
    if mid in st.messages && st.messages[mid].recipient.Some?
    then st.(messages := st.messages[mid := st.messages[mid].(acknowledged := true)]) else st
  }

  /** A batch of moves. `acked` names the messages acknowledged after the batch was selected and
      before their own compare-and-set. */
  function ApplyMoves(st: Store, moves: seq<Move>, acked: set<Mid>): (r: Store)
    ensures r.sessions == st.sessions && r.messages.Keys == st.messages.Keys && r.handoffs.Keys == st.handoffs.Keys
    decreases |moves|
  {
    if moves == [] then st
    else
      var mv := moves[0];
      ApplyMoves(ApplyMove(if mv.mid in acked then Acknowledge(st, mv.mid) else st, mv), moves[1..], acked)
  }

  /** General mail of the ticket, unread, sent within the account. */
  predicate GeneralMail(st: Store, mid: Mid, ticket: int, uid: int) {
    mid in st.messages && var m := st.messages[mid];
    && m.ticketMode && m.ticket == Some(ticket) && !m.acknowledged
    && m.sender in st.sessions && st.sessions[m.sender].uid == Some(uid)
  }

  predicate MayNotHold(st: Store, sid: Sid, holder: Option<Sid>) {
    sid in st.sessions && var s := st.sessions[sid];
    || (Live(s) && (s.role == Some(Contributor) || s.role == Some(Reviewer)))
    || (s.status == Completed && !s.autoCompleted && s.role.Some?)
    || holder == Some(sid)
  }

  /** The rows `reconcile_ticket_mail` selects. */
  predicate Misplaced(st: Store, mid: Mid, ticket: int, uid: int, holder: Option<Sid>) {
    && GeneralMail(st, mid, ticket, uid)
    && st.messages[mid].recipient.Some? && MayNotHold(st, st.messages[mid].recipient.value, holder)
  }

  function ReconcileMove(st: Store, mid: Mid, owner: Option<Sid>, holder: Option<Sid>): Move
    requires mid in st.messages && st.messages[mid].recipient.Some?
  {
    var m := st.messages[mid];
    var from := m.recipient.value;
    var target := if owner.Some? && owner.value != m.sender then owner else None;
    var reason := if holder == Some(from) || (from in st.sessions && st.sessions[from].status != Completed)
                  then NotOwner else RecipientCompleted;
    Move(mid, Some(from), target,
         [Released(from, reason)] + if target.Some? then [Assigned(target.value, OwnerRoute)] else [])
  }

  /** The pool mail `claim_pool` selects for a live owner. */
  predicate Pooled(st: Store, mid: Mid, sid: Sid) {
    && sid in st.sessions && st.sessions[sid].ticket.Some? && st.sessions[sid].uid.Some?
    && GeneralMail(st, mid, st.sessions[sid].ticket.value, st.sessions[sid].uid.value)
    && st.messages[mid].recipient.None? && st.messages[mid].sender != sid
  }

  function ClaimMove(mid: Mid, sid: Sid): Move {
    Move(mid, None, Some(sid), [Assigned(sid, TicketClaim)])
  }

  /** The unread ticket mail `release_unread_ticket_messages` selects. */
  predicate Unread(st: Store, mid: Mid, sid: Sid) {
    mid in st.messages && var m := st.messages[mid];
    m.recipient == Some(sid) && m.ticketMode && !m.acknowledged
  }

  function ReleaseMove(st: Store, mid: Mid, sid: Sid): Move
    requires mid in st.messages
  {
    Move(mid, Some(sid), None,
         (if st.messages[mid].history == [] then [Assigned(sid, LegacyClaim)] else [])
         + [Released(sid, RecipientCompleted)])
  }

  // ---------------------------------------------------------------- batches, row by row

  function ReconcileMoves(st: Store, rows: seq<Mid>, owner: Option<Sid>, holder: Option<Sid>): seq<Move>
    requires forall k :: 0 <= k < |rows| ==> rows[k] in st.messages && st.messages[rows[k]].recipient.Some?
  {
    seq(|rows|, k requires 0 <= k < |rows| => ReconcileMove(st, rows[k], owner, holder))
  }

  function ClaimMoves(rows: seq<Mid>, sid: Sid): seq<Move> {
    seq(|rows|, k requires 0 <= k < |rows| => ClaimMove(rows[k], sid))
  }

  function ReleaseMoves(st: Store, rows: seq<Mid>, sid: Sid): seq<Move>
    requires forall k :: 0 <= k < |rows| ==> rows[k] in st.messages
  {
    seq(|rows|, k requires 0 <= k < |rows| => ReleaseMove(st, rows[k], sid))
  }

  predicate Distinct(rows: seq<Mid>) {
    forall i, j :: 0 <= i < j < |rows| ==> rows[i] != rows[j]
  }

  /** An answer to a SELECT: each selected row once. */
  ghost predicate Selects(rows: seq<Mid>, selected: Mid -> bool) {
    Distinct(rows) && forall mid :: mid in rows <==> selected(mid)
  }

  // ---------------------------------------------------------------- the delivery log

  /** Who a delivery log says holds the message. */
  function Replay(history: seq<Delivery>): Option<Sid> {
    if history == [] then None
    else match history[|history| - 1] case Assigned(sid, _) => Some(sid) case Released(_, _) => None
  }

  lemma ReplayAppend(history: seq<Delivery>, events: seq<Delivery>)
    ensures Replay(history + events) == if events == [] then Replay(history) else Replay(events)
  {
    assert events == [] ==> history + events == history;
  }
}
