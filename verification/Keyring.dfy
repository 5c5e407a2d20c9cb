/** The capability keyring of session_pointer.py: one client's saved tokens, oldest first. */
module Keyrings {
  import opened Wrappers

  const APPROVAL_TOKEN_MAX := 32

  type Sid = string

  datatype State = Open | Completed | Revoked

  datatype Entry = Entry(sid: Sid, token: string, state: State, parent: Option<Sid>)

  type Entries = seq<Entry>

  function Find(s: Entries, sid: Sid): (i: nat)
    ensures i <= |s| && (i < |s| ==> s[i].sid == sid) && forall k :: 0 <= k < i ==> s[k].sid != sid
  {
    if s == [] then 0 else if s[0].sid == sid then 0 else 1 + Find(s[1..], sid)
  }

  predicate Has(s: Entries, sid: Sid) {
    Find(s, sid) < |s|
  }

  function Lookup(s: Entries, sid: Sid): Entry
    requires Has(s, sid)
  {
    s[Find(s, sid)]
  }

  predicate OneEach(s: Entries) {
    forall i, j :: 0 <= i < j < |s| ==> s[i].sid != s[j].sid
  }

  function Without(s: Entries, i: nat): Entries
    requires i < |s|
  {
    s[..i] + s[i + 1..]
  }

  /** The first entry that is not open. */
  function Victim(s: Entries): (i: nat)
    ensures i <= |s| && (i < |s| ==> s[i].state != Open) && forall k :: 0 <= k < i ==> s[k].state == Open
  {
    if s == [] then 0 else if s[0].state != Open then 0 else 1 + Victim(s[1..])
  }

  /** The specification of `_evict`. */
  function Evicted(s: Entries): Entries
    decreases |s|
  {
    if |s| <= APPROVAL_TOKEN_MAX || Victim(s) == |s| then s else Evicted(Without(s, Victim(s)))
  }

  function Popped(s: Entries, sid: Sid): Entries {
    if Has(s, sid) then Without(s, Find(s, sid)) else s
  }

  function Saved(s: Entries, sid: Sid, token: string, parent: Option<Sid>): Entries {
    if sid == "" || token == "" then s
    else Evicted(Popped(s, sid) + [Entry(sid, token, Open, parent)])
  }

  predicate Marks(s: Entries, sid: Sid, state: State) {
    sid != "" && Has(s, sid) && Lookup(s, sid).state != state && Lookup(s, sid).state != Revoked
  }

  function Marked(s: Entries, sid: Sid, state: State): Entries {
    if !Marks(s, sid, state) then s else Evicted(s[Find(s, sid) := Lookup(s, sid).(state := state)])
  }

  class Keyring {
    var entries: Entries

    constructor ()
      ensures entries == []
    {
      entries := [];
    }

    /** `_evict` */
    method Evict()
      modifies this
      ensures entries == Evicted(old(entries))
    {
      while |entries| > APPROVAL_TOKEN_MAX
        invariant Evicted(entries) == Evicted(old(entries))
        decreases |entries|
      {
        var victim := 0;
        while victim < |entries| && entries[victim].state == Open
          invariant victim <= |entries| && forall k :: 0 <= k < victim ==> entries[k].state == Open
        {
          victim := victim + 1;
        }
        if victim == |entries| { return; }
        entries := Without(entries, victim);
      }
    }

    method Save(sid: Sid, token: string, parent: Option<Sid>)
      modifies this
      ensures entries == Saved(old(entries), sid, token, parent)
    {
      if sid == "" || token == "" { return; }
      var i := Find(entries, sid);
      if i < |entries| {
        entries := Without(entries, i);
      }
      entries := entries + [Entry(sid, token, Open, parent)];
      Evict();
    }

    method Mark(sid: Sid, state: State) returns (changed: bool)
      requires state != Open
      modifies this
      ensures changed == Marks(old(entries), sid, state)
      ensures entries == Marked(old(entries), sid, state)
    {
      if sid == "" { return false; }
      var i := Find(entries, sid);
      if i == |entries| || entries[i].state == state || entries[i].state == Revoked { return false; }
      entries := entries[i := entries[i].(state := state)];
      Evict();
      return true;
    }

    /** `load_approval_token`; `legacy` and `delegated` are what the older files say. */
    method Load(sid: Sid, legacy: string, delegated: Option<(Sid, string)>) returns (token: string)
      ensures Has(entries, sid) && sid != "" ==>
          token == if Lookup(entries, sid).state == Revoked then "" else Lookup(entries, sid).token
      ensures !Has(entries, sid) && sid != "" ==>
                token == if legacy != "" then legacy
                         else if delegated.Some? && delegated.value.0 == sid then delegated.value.1
                         else ""
      ensures sid == "" ==> token == ""
    {
      if sid == "" { return ""; }
      var i := Find(entries, sid);
      if i < |entries| {
        return if entries[i].state == Revoked then "" else entries[i].token;
      }
      if legacy != "" { return legacy; }
      return if delegated.Some? && delegated.value.0 == sid then delegated.value.1 else "";
    }
  }

  // ---------------------------------------------------------------- what eviction drops

  function Opens(s: Entries): Entries {
    if s == [] then [] else Opens(s[..|s| - 1]) + (if s[|s| - 1].state == Open then [s[|s| - 1]] else [])
  }

  /** `r` is `s` with the non-open entries before position `n` dropped. */
  predicate DroppedTo(s: Entries, n: nat, r: Entries) {
    n <= |s| && r == Opens(s[..n]) + s[n..]
  }

  lemma {:induction false} OpensOnly(s: Entries)
    ensures forall k :: 0 <= k < |Opens(s)| ==> Opens(s)[k].state == Open
    ensures (forall k :: 0 <= k < |s| ==> s[k].state == Open) ==> Opens(s) == s
    ensures |Opens(s)| <= |s|
  {
    if s != [] {
      OpensOnly(s[..|s| - 1]);
      assert s == s[..|s| - 1] + [s[|s| - 1]];
    }
  }

  lemma OpensUpTo(s: Entries, n: nat, m: nat)
    requires n <= m <= |s| && forall k :: n <= k < m ==> s[k].state == Open
    ensures Opens(s[..m]) == Opens(s[..n]) + s[n..m]
    decreases m - n
  {
    if n == m {
      assert s[..m] == s[..n] && s[n..m] == [];
    } else {
      OpensUpTo(s, n, m - 1);
      assert s[..m][..m - 1] == s[..m - 1] && s[n..m] == s[n..m - 1] + [s[m - 1]];
    }
  }

  /** Eviction drops the oldest non-open entries, in order, and no more of them than it must. */
  lemma EvictionIsExact(s: Entries)
    ensures |Evicted(s)| <= 32 || forall k :: 0 <= k < |Evicted(s)| ==> Evicted(s)[k].state == Open
    ensures |s| >= 32 ==> |Evicted(s)| >= 32
    ensures |s| < 32 ==> Evicted(s) == s
    ensures exists n :: DroppedTo(s, n, Evicted(s))
  {
    assert s[..0] == [] && s[0..] == s;
    EvictFrom(s, 0, s);
  }

  lemma {:induction false} EvictFrom(s: Entries, n: nat, r: Entries)
    requires DroppedTo(s, n, r)
    ensures |Evicted(r)| <= APPROVAL_TOKEN_MAX || forall k :: 0 <= k < |Evicted(r)| ==> Evicted(r)[k].state == Open
    ensures |r| >= APPROVAL_TOKEN_MAX ==> |Evicted(r)| >= APPROVAL_TOKEN_MAX
    ensures |r| < APPROVAL_TOKEN_MAX ==> Evicted(r) == r
    ensures exists m :: DroppedTo(s, m, Evicted(r))
    decreases |r|
  {
    var v := Victim(r);
    if |r| > APPROVAL_TOKEN_MAX && v < |r| {
      var m := DropNext(s, n, r);
      EvictFrom(s, m, Without(r, v));
    }
  }

  lemma DropNext(s: Entries, n: nat, r: Entries) returns (m: nat)
    requires DroppedTo(s, n, r) && Victim(r) < |r|
    ensures DroppedTo(s, m, Without(r, Victim(r)))
  {
    OpensOnly(s[..n]);
    var at := n + (Victim(r) - |Opens(s[..n])|);
    m := at + 1;
    DropAt(s, n, r, Opens(s[..n]), s[n..], at);
  }

  lemma DropAt(s: Entries, n: nat, r: Entries, open: Entries, rest: Entries, at: nat)
    requires n <= at < |s| && open == Opens(s[..n]) && rest == s[n..] && r == open + rest
    requires at == n + Victim(r) - |open| && s[at].state != Open
    ensures Without(r, Victim(r)) == Opens(s[..at + 1]) + s[at + 1..]
  {
    forall k | n <= k < at ensures s[k].state == Open {
      assert s[k] == rest[k - n] == r[|open| + k - n];
    }
    OpensUpTo(s, n, at);
    assert s[..at + 1][..at] == s[..at] && Opens(s[..at + 1]) == Opens(s[..at]);
    WithoutConcat(open, rest, at - n);
    assert s[n..at] == rest[..at - n] && s[at + 1..] == rest[at - n + 1..];
  }

  lemma WithoutConcat(a: Entries, b: Entries, i: nat)
    requires i < |b|
    ensures Without(a + b, |a| + i) == a + b[..i] + b[i + 1..]
  {
  }

  // ---------------------------------------------------------------- runs

  datatype Op = Save(sid: Sid, token: string, parent: Option<Sid>) | Mark(sid: Sid, state: State)

  predicate IsOp(op: Op) {
    op.Mark? ==> op.state != Open
  }

  function Apply(s: Entries, op: Op): Entries {
    match op
    case Save(sid, token, parent) => Saved(s, sid, token, parent)
    case Mark(sid, state) => Marked(s, sid, state)
  }

  function After(ops: seq<Op>): Entries {
    if ops == [] then [] else Apply(After(ops[..|ops| - 1]), ops[|ops| - 1])
  }

  predicate Saves(op: Op, sid: Sid) {
    op.Save? && op.sid == sid && op.sid != "" && op.token != ""
  }

  function Rank(s: State): nat {
    match s case Open => 0 case Completed => 1 case Revoked => 2
  }

  /** What a history says of one session: when it was last saved (counted from 1, 0 for never), what
      was saved, and the worst mark it was given since. */
  datatype Memo = Memo(saved: nat, token: string, parent: Option<Sid>, worst: State)

  function Recall(ops: seq<Op>, sid: Sid): Memo {
    if ops == [] then Memo(0, "", None, Open)
    else Remember(Recall(ops[..|ops| - 1], sid), |ops|, ops[|ops| - 1], sid)
  }

  function Remember(m: Memo, at: nat, op: Op, sid: Sid): Memo {
    if Saves(op, sid) then Memo(at, op.token, op.parent, Open)
    else if op.Mark? && op.sid == sid && Rank(op.state) > Rank(m.worst) then m.(worst := op.state)
    else m
  }

  lemma RecallSnoc(before: seq<Op>, op: Op, sid: Sid)
    ensures Recall(before + [op], sid) == Remember(Recall(before, sid), |before| + 1, op, sid)
  {
    assert (before + [op])[..|before|] == before;
  }

  lemma {:induction false} RecallBound(ops: seq<Op>, sid: Sid)
    ensures Recall(ops, sid).saved <= |ops| && (sid == "" ==> Recall(ops, sid).saved == 0)
  {
    if ops != [] { RecallBound(ops[..|ops| - 1], sid); }
  }

  type Memory = Sid -> Memo

  /** An entry is what was last saved under its id, in the state its marks since then give it. */
  predicate Faithful(m: Memo, e: Entry) {
    m.saved > 0 && e.token == m.token && e.parent == m.parent && e.state == m.worst
  }

  predicate Present(s: Entries, sid: Sid) {
    exists k :: 0 <= k < |s| && s[k].sid == sid
  }

  predicate Fits(s: Entries) {
    |s| <= APPROVAL_TOKEN_MAX || forall k :: 0 <= k < |s| ==> s[k].state == Open
  }

  /** Every entry is faithful, they stand in the order of their last saves, and every session saved
      and not marked since is among them. */
  ghost predicate Sound(m: Memory, s: Entries) {
    && (forall k :: 0 <= k < |s| ==> Faithful(m(s[k].sid), s[k]))
    && (forall i, j :: 0 <= i < j < |s| ==> m(s[i].sid).saved < m(s[j].sid).saved)
    && (forall sid :: m(sid).saved > 0 && m(sid).worst == Open ==> Present(s, sid))
  }

  lemma SoundMeansOneEach(m: Memory, s: Entries)
    requires Sound(m, s)
    ensures OneEach(s)
  {
  }

  lemma {:induction false} FindIs(s: Entries, i: nat)
    requires i < |s| && OneEach(s)
    ensures Find(s, s[i].sid) == i
  {
    if i > 0 {
      assert s[0].sid != s[i].sid;
      assert s[1..][i - 1] == s[i];
      FindIs(s[1..], i - 1);
    }
  }

  lemma WithoutAt(s: Entries, v: nat)
    requires v < |s|
    ensures |Without(s, v)| == |s| - 1
    ensures forall k :: 0 <= k < |s| - 1 ==> Without(s, v)[k] == s[if k < v then k else k + 1]
  {
  }

  lemma StillPresent(s: Entries, v: nat, sid: Sid)
    requires v < |s| && Present(s, sid) && s[v].sid != sid
    ensures Present(Without(s, v), sid)
  {
    var k :| 0 <= k < |s| && s[k].sid == sid;
    WithoutAt(s, v);
    assert Without(s, v)[if k < v then k else k - 1].sid == sid;
  }

  lemma DroppingKeepsSound(m: Memory, s: Entries, v: nat)
    requires Sound(m, s) && v < |s| && s[v].state != Open
    ensures Sound(m, Without(s, v))
  {
    WithoutAt(s, v);
    forall sid | m(sid).saved > 0 && m(sid).worst == Open ensures Present(Without(s, v), sid) {
      assert Faithful(m(s[v].sid), s[v]);
      StillPresent(s, v, sid);
    }
  }

  lemma {:induction false} EvictionKeepsSound(m: Memory, s: Entries)
    requires Sound(m, s)
    ensures Sound(m, Evicted(s)) && Fits(Evicted(s))
    decreases |s|
  {
    var v := Victim(s);
    if |s| > APPROVAL_TOKEN_MAX && v < |s| {
      DroppingKeepsSound(m, s, v);
      EvictionKeepsSound(m, Without(s, v));
    }
  }

  /** Taking a session out: everything but its own entry stays, in order. */
  lemma PoppedSound(m: Memory, s: Entries, sid: Sid)
    requires Sound(m, s)
    ensures var kept := Popped(s, sid);
            && (forall k :: 0 <= k < |kept| ==> kept[k].sid != sid && Faithful(m(kept[k].sid), kept[k]))
            && (forall i, j :: 0 <= i < j < |kept| ==> m(kept[i].sid).saved < m(kept[j].sid).saved)
            && (forall x :: x != sid && m(x).saved > 0 && m(x).worst == Open ==> Present(kept, x))
  {
    var i := Find(s, sid);
    if i < |s| {
      WithoutAt(s, i);
      SoundMeansOneEach(m, s);
      forall x | x != sid && m(x).saved > 0 && m(x).worst == Open ensures Present(Without(s, i), x) {
        StillPresent(s, i, x);
      }
    }
  }

  lemma SaveKeepsSound(m: Memory, s: Entries, sid: Sid, token: string, parent: Option<Sid>, at: nat, next: Memory)
    requires Sound(m, s) && forall x :: m(x).saved < at
    requires forall x :: next(x) == if x == sid then Memo(at, token, parent, Open) else m(x)
    ensures Sound(next, Popped(s, sid) + [Entry(sid, token, Open, parent)])
  {
    PoppedSound(m, s, sid);
    assert m(sid).saved < at;
    AppendKeepsSound(Popped(s, sid), Entry(sid, token, Open, parent), next);
  }

  /** A newly saved entry goes last. */
  lemma AppendKeepsSound(kept: Entries, e: Entry, next: Memory)
    requires Faithful(next(e.sid), e)
    requires forall k :: 0 <= k < |kept| ==>
        Faithful(next(kept[k].sid), kept[k]) && next(kept[k].sid).saved < next(e.sid).saved
    requires forall i, j :: 0 <= i < j < |kept| ==> next(kept[i].sid).saved < next(kept[j].sid).saved
    requires forall x :: x != e.sid && next(x).saved > 0 && next(x).worst == Open ==> Present(kept, x)
    ensures Sound(next, kept + [e])
  {
    var now := kept + [e];
    assert now[|kept|] == e && forall k :: 0 <= k < |kept| ==> now[k] == kept[k];
    forall x | next(x).saved > 0 && next(x).worst == Open ensures Present(now, x) {
      if x == e.sid {
        assert now[|kept|].sid == x;
      } else {
        var k :| 0 <= k < |kept| && kept[k].sid == x;
        assert now[k].sid == x;
      }
    }
  }

  lemma MarkedEntry(m: Memo, s: Entries, sid: Sid, state: State, k: nat)
    requires k < |s| && OneEach(s) && Faithful(m, s[k]) && state != Open && (sid == "" ==> s[k].sid != sid)
    ensures var now := if Marks(s, sid, state) then s[Find(s, sid) := Lookup(s, sid).(state := state)] else s;
            && now[k].sid == s[k].sid
            && Faithful(if s[k].sid == sid && Rank(state) > Rank(m.worst) then m.(worst := state) else m, now[k])
  {
    if s[k].sid == sid { FindIs(s, k); }
  }

  lemma MarkKeepsSound(m: Memory, s: Entries, sid: Sid, state: State, next: Memory)
    requires Sound(m, s) && state != Open && m("").saved == 0
    requires forall x :: next(x) == if x == sid && Rank(state) > Rank(m(x).worst) then m(x).(worst := state) else m(x)
    ensures Sound(next, if Marks(s, sid, state) then s[Find(s, sid) := Lookup(s, sid).(state := state)] else s)
  {
    var i := Find(s, sid);
    var now := if Marks(s, sid, state) then s[i := s[i].(state := state)] else s;
    SoundMeansOneEach(m, s);
    forall k | 0 <= k < |now| ensures now[k].sid == s[k].sid && Faithful(next(now[k].sid), now[k]) {
      MarkedEntry(m(s[k].sid), s, sid, state, k);
    }
    forall x | next(x).saved > 0 && next(x).worst == Open ensures Present(now, x) {
      assert m(x).saved > 0 && m(x).worst == Open;
      var k :| 0 <= k < |s| && s[k].sid == x;
      assert now[k].sid == x;
    }
  }

  function MemoryOf(ops: seq<Op>): Memory {
    sid => Recall(ops, sid)
  }

  /** Any sequence of saves and marks. No open entry is ever lost: every session saved and not marked
      since is in the keyring. Each entry has its own last saved token. There are at most 32 entries,
      or all of them are open. They stand in the order of their last saves, which is the order
      eviction drops them in. */
  lemma {:induction false} KeyringIsSound(ops: seq<Op>)
    requires forall k :: 0 <= k < |ops| ==> IsOp(ops[k])
    ensures Sound(MemoryOf(ops), After(ops)) && Fits(After(ops))
  {
    if ops != [] {
      var before, op := ops[..|ops| - 1], ops[|ops| - 1];
      KeyringIsSound(before);
      assert ops == before + [op];
      forall x ensures Recall(ops, x) == Remember(Recall(before, x), |ops|, op, x) && Recall(before, x).saved < |ops| {
        RecallSnoc(before, op, x);
        RecallBound(before, x);
      }
      RecallBound(before, "");
      StepKeepsSound(MemoryOf(before), After(before), op, |ops|, MemoryOf(ops));
    }
  }

  lemma StepKeepsSound(m: Memory, s: Entries, op: Op, at: nat, next: Memory)
    requires Sound(m, s) && Fits(s) && IsOp(op) && m("").saved == 0 && forall x :: m(x).saved < at
    requires forall x :: next(x) == Remember(m(x), at, op, x)
    ensures Sound(next, Apply(s, op)) && Fits(Apply(s, op))
  {
    match op
    case Mark(sid, state) =>
      var now := if Marks(s, sid, state) then s[Find(s, sid) := Lookup(s, sid).(state := state)] else s;
      MarkKeepsSound(m, s, sid, state, next);
      EvictionKeepsSound(next, now);
    case Save(sid, token, parent) =>
      if Saves(op, sid) {
        SaveKeepsSound(m, s, sid, token, parent, at, next);
        EvictionKeepsSound(next, Popped(s, sid) + [Entry(sid, token, Open, parent)]);
      } else {
        assert forall x :: next(x) == m(x);
      }
  }

  /** Between two saves of a session its state never moves back and its token stays. */
  lemma StatesMoveForward(ops: seq<Op>, more: seq<Op>, sid: Sid)
    requires forall k :: 0 <= k < |ops + more| ==> IsOp((ops + more)[k])
    requires forall k :: 0 <= k < |more| ==> !Saves(more[k], sid)
    requires Has(After(ops), sid) && Has(After(ops + more), sid)
    ensures Rank(Lookup(After(ops), sid).state) <= Rank(Lookup(After(ops + more), sid).state)
    ensures Lookup(After(ops), sid).token == Lookup(After(ops + more), sid).token
  {
    assert forall k :: 0 <= k < |ops| ==> ops[k] == (ops + more)[k];
    KeyringIsSound(ops);
    KeyringIsSound(ops + more);
    EntryIsFaithful(MemoryOf(ops), After(ops), sid);
    EntryIsFaithful(MemoryOf(ops + more), After(ops + more), sid);
    MarksOnlyWorsen(ops, more, sid);
  }

  lemma EntryIsFaithful(m: Memory, s: Entries, sid: Sid)
    requires Sound(m, s) && Has(s, sid)
    ensures Faithful(m(sid), Lookup(s, sid))
  {
  }

  lemma {:induction false} MarksOnlyWorsen(ops: seq<Op>, more: seq<Op>, sid: Sid)
    requires forall k :: 0 <= k < |more| ==> !Saves(more[k], sid)
    ensures Rank(Recall(ops, sid).worst) <= Rank(Recall(ops + more, sid).worst)
    ensures Recall(ops, sid).token == Recall(ops + more, sid).token
    decreases |more|
  {
    if more == [] {
      assert ops + more == ops;
    } else {
      var less := more[..|more| - 1];
      MarksOnlyWorsen(ops, less, sid);
      assert ops + more == (ops + less) + [more[|more| - 1]];
      RecallSnoc(ops + less, more[|more| - 1], sid);
    }
  }
}
