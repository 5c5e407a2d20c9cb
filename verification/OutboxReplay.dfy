/** Historical replay: events for completed sessions that never had one in the outbox. */
module OutboxReplay {
  import opened Wrappers
  import opened PyStrings
  import opened Outbox

  datatype Ended = Ended(sid: string, completedAt: string, autoCompleted: bool)

  datatype Event = Event(id: EventId, sid: string, reason: Reason, hasHandoff: bool)

  const PREFIX := "ats.session.completed/v1/"

  function EventIdFor(sid: string, completedAt: string): EventId {
    PREFIX + sid + "/" + completedAt
  }

  /** `build_event`, for a completed session. */
  function BuildEvent(s: Ended, handoffs: set<string>): Event {
    var reason := if s.autoCompleted then Reaped else OwnerCompleted;
    Event(EventIdFor(s.sid, s.completedAt), s.sid, reason, s.sid in handoffs)
  }

  predicate Wanted(s: Ended, handoffs: set<string>, handoffsOnly: bool, t: Table) {
    (handoffsOnly ==> s.sid in handoffs) && EventIdFor(s.sid, s.completedAt) !in t
  }

  /** The specification of `replay_plan`, over the first `n` completed sessions in order of completion. */
  function Plan(ended: seq<Ended>, n: nat, handoffs: set<string>, handoffsOnly: bool, t: Table): seq<Event>
    requires n <= |ended|
  {
    if n == 0 then []
    else
      Plan(ended, n - 1, handoffs, handoffsOnly, t)
      + if Wanted(ended[n - 1], handoffs, handoffsOnly, t) then [BuildEvent(ended[n - 1], handoffs)] else []
  }

  method ReplayPlan(ended: seq<Ended>, handoffs: set<string>, handoffsOnly: bool, t: Table) returns (out: seq<Event>)
    ensures out == Plan(ended, |ended|, handoffs, handoffsOnly, t)
  {
    out := [];
    for i := 0 to |ended|
      invariant out == Plan(ended, i, handoffs, handoffsOnly, t)
    {
      if Wanted(ended[i], handoffs, handoffsOnly, t) {
        out := out + [BuildEvent(ended[i], handoffs)];
      }
    }
  }

  function EventRow(e: Event, at: int): Row {
    NewRow(at, at, e.reason, e.hasHandoff)
  }

  predicate DistinctIds(events: seq<Event>) {
    forall i, j :: 0 <= i < j < |events| ==> events[i].id != events[j].id
  }

  /** The rows `replay_apply` adds. A repeated event id would break the primary key. */
  method ReplayApply(t: Table, events: seq<Event>, at: int) returns (out: Table)
    requires DistinctIds(events)
    requires forall i :: 0 <= i < |events| ==> events[i].id !in t
    ensures forall id :: id in out <==> id in t || exists i :: 0 <= i < |events| && events[i].id == id
    ensures forall id :: id in t ==> out[id] == t[id]
    ensures forall i :: 0 <= i < |events| ==>
              var r := out[events[i].id];
              && Pending(r) && r.attempts == 0 && r.createdAt == at
              && r.reason == events[i].reason && r.hasHandoff == events[i].hasHandoff
              && forall now :: Open(r, now) <==> now >= at
  {
    out := t;
    for i := 0 to |events|
      invariant forall id :: id in out <==> id in t || exists j :: 0 <= j < i && events[j].id == id
      invariant forall id :: id in t ==> out[id] == t[id]
      invariant forall j :: 0 <= j < i ==> out[events[j].id] == EventRow(events[j], at)
    {
      out := out[events[i].id := EventRow(events[i], at)];
    }
  }

  /** An event id names one completion: session ids carry no "/". */
  lemma EventIdInjective(s1: string, c1: string, s2: string, c2: string)
    requires '/' !in s1 && '/' !in s2 && EventIdFor(s1, c1) == EventIdFor(s2, c2)
    ensures s1 == s2 && c1 == c2
  {
    var n := |PREFIX|;
    var a, b := s1 + "/" + c1, s2 + "/" + c2;
    assert EventIdFor(s1, c1) == PREFIX + a && EventIdFor(s2, c2) == PREFIX + b;
    assert a == (PREFIX + a)[n..] && b == (PREFIX + b)[n..];
    SplitConcat(s1, c1, '/');
    SplitConcat(s2, c2, '/');
    SplitNoSep(s1, '/');
    SplitNoSep(s2, '/');
    assert Split(a, '/')[0] == s1 && Split(a, '/')[0] == s2;
    assert c1 == a[|s1| + 1..] && c2 == b[|s1| + 1..];
  }

  ghost predicate OneRowEach(ended: seq<Ended>) {
    && (forall i :: 0 <= i < |ended| ==> '/' !in ended[i].sid)
    && forall i, j :: 0 <= i < j < |ended| ==> ended[i].sid != ended[j].sid
  }

  /** `e` is the event the session's own completion would have recorded. */
  predicate Tells(e: Event, s: Ended, handoffs: set<string>) {
    && e.sid == s.sid && e.id == "ats.session.completed/v1/" + s.sid + "/" + s.completedAt
    && (e.reason == Reaped <==> s.autoCompleted) && (e.hasHandoff <==> s.sid in handoffs)
  }

  /** `e` is the event of one of the first `n` sessions that lacked one. */
  ghost predicate PlannedFrom(e: Event, ended: seq<Ended>, n: nat, handoffs: set<string>, handoffsOnly: bool,
                              t: Table) {
    exists i :: 0 <= i < n && i < |ended| && Tells(e, ended[i], handoffs) && e.id !in t
      && (handoffsOnly ==> e.hasHandoff)
  }

  /** The a-th planned event comes from the session at place `at(a)`: the plan follows completion. */
  lemma {:induction false} PlanKeepsOrder(ended: seq<Ended>, n: nat, handoffs: set<string>, handoffsOnly: bool,
                                          t: Table)
    returns (at: seq<nat>)
    requires n <= |ended|
    ensures var plan := Plan(ended, n, handoffs, handoffsOnly, t);
            && |at| == |plan| && (forall a :: 0 <= a < |at| ==> at[a] < n && Tells(plan[a], ended[at[a]], handoffs))
            && (forall a, b :: 0 <= a < b < |at| ==> at[a] < at[b])
  {
    if n == 0 {
      at := [];
    } else {
      at := PlanKeepsOrder(ended, n - 1, handoffs, handoffsOnly, t);
      if Wanted(ended[n - 1], handoffs, handoffsOnly, t) { at := at + [n - 1]; }
    }
  }

  lemma {:induction false} PlanIsSound(ended: seq<Ended>, n: nat, handoffs: set<string>, handoffsOnly: bool, t: Table)
    requires n <= |ended|
    ensures forall e :: e in Plan(ended, n, handoffs, handoffsOnly, t) <==>
        PlannedFrom(e, ended, n, handoffs, handoffsOnly, t)
  {
    if n > 0 {
      PlanIsSound(ended, n - 1, handoffs, handoffsOnly, t);
      var last := ended[n - 1];
      forall e ensures e == BuildEvent(last, handoffs) <==> Tells(e, last, handoffs) {
        assert PREFIX + last.sid + "/" + last.completedAt ==
            "ats.session.completed/v1/" + last.sid + "/" + last.completedAt;
      }
    }
  }

  lemma {:induction false} PlanHasOneEach(ended: seq<Ended>, n: nat, handoffs: set<string>, handoffsOnly: bool,
                                          t: Table)
    requires n <= |ended| && OneRowEach(ended)
    ensures DistinctIds(Plan(ended, n, handoffs, handoffsOnly, t))
  {
    if n > 0 {
      PlanHasOneEach(ended, n - 1, handoffs, handoffsOnly, t);
      PlanIsSound(ended, n - 1, handoffs, handoffsOnly, t);
      var before := Plan(ended, n - 1, handoffs, handoffsOnly, t);
      var last := EventIdFor(ended[n - 1].sid, ended[n - 1].completedAt);
      forall j | 0 <= j < |before| ensures before[j].id != last {
        assert before[j] in before;
        NotTheLast(ended, n - 1, handoffs, handoffsOnly, t, before[j]);
      }
      assert before + [] == before;
    }
  }

  lemma NotTheLast(ended: seq<Ended>, n: nat, handoffs: set<string>, handoffsOnly: bool, t: Table, e: Event)
    requires n < |ended| && OneRowEach(ended) && PlannedFrom(e, ended, n, handoffs, handoffsOnly, t)
    ensures e.id != EventIdFor(ended[n].sid, ended[n].completedAt)
  {
    var i :| 0 <= i < n && i < |ended| && Tells(e, ended[i], handoffs);
    var a, b := ended[i], ended[n];
    assert a.sid != b.sid && '/' !in a.sid && '/' !in b.sid;
    var last := EventIdFor(b.sid, b.completedAt);
    assert e.id == EventIdFor(a.sid, a.completedAt);
    if e.id == last {
      EventIdInjective(a.sid, a.completedAt, b.sid, b.completedAt);
    }
  }

  lemma {:induction false} NothingWanted(ended: seq<Ended>, n: nat, handoffs: set<string>, handoffsOnly: bool, t: Table)
    requires n <= |ended| && forall i :: 0 <= i < n ==> !Wanted(ended[i], handoffs, handoffsOnly, t)
    ensures Plan(ended, n, handoffs, handoffsOnly, t) == []
  {
    if n > 0 {
      NothingWanted(ended, n - 1, handoffs, handoffsOnly, t);
    }
  }

  /** Planning, applying and planning again finds nothing; no row that was there is touched. */
  method ReplayTwice(ended: seq<Ended>, handoffs: set<string>, handoffsOnly: bool, t: Table, at: int)
    returns (out: Table, again: seq<Event>)
    requires OneRowEach(ended)
    ensures again == []
    ensures forall id :: id in t ==> id in out && out[id] == t[id]
    ensures forall i :: 0 <= i < |ended| && (handoffsOnly ==> ended[i].sid in handoffs) ==>
              EventIdFor(ended[i].sid, ended[i].completedAt) in out
  {
    var events := ReplayPlan(ended, handoffs, handoffsOnly, t);
    PlanIsSound(ended, |ended|, handoffs, handoffsOnly, t);
    PlanHasOneEach(ended, |ended|, handoffs, handoffsOnly, t);
    assert forall k :: 0 <= k < |events| ==> events[k] in events;
    out := ReplayApply(t, events, at);
    forall i | 0 <= i < |ended| ensures !Wanted(ended[i], handoffs, handoffsOnly, out) {
      if Wanted(ended[i], handoffs, handoffsOnly, t) {
        assert Tells(BuildEvent(ended[i], handoffs), ended[i], handoffs);
        assert PlannedFrom(BuildEvent(ended[i], handoffs), ended, |ended|, handoffs, handoffsOnly, t);
        assert BuildEvent(ended[i], handoffs) in events;
      }
    }
    NothingWanted(ended, |ended|, handoffs, handoffsOnly, out);
    again := ReplayPlan(ended, handoffs, handoffsOnly, out);
  }
}
