/** Worker classes of workers.py: which class a agent, and a session, gets. */
module Workers {
  import opened Wrappers
  import opened PyStrings

  /** `uids`: the OS accounts the class is bound to; none for an unbound class. */
  datatype Worker = Worker(name: string, uids: set<int>, mayEdit: bool, mayCommit: bool)

  type Registry = map<string, Worker>

  const Restricted := Worker("restricted", {}, false, false)

  predicate CleanName(name: string) {
    name != "" && Strip(name) == name
  }

  predicate WellFormed(reg: Registry) {
    forall name :: name in reg ==> reg[name].name == name && CleanName(name)
  }

  /** The position of the last ":" before `n`, plus one; 0 if there is none. */
  function LastColon(s: string, n: nat): (i: nat)
    requires n <= |s|
    ensures i <= n && (i > 0 ==> s[i - 1] == ':') && forall k :: i <= k < n ==> s[k] != ':'
  {
    if n == 0 then 0 else if s[n - 1] == ':' then n else LastColon(s, n - 1)
  }

  /** `key.rsplit(":", 1)[0]` */
  function Parent(key: string): (p: string)
    requires LastColon(key, |key|) > 0
    ensures |p| < |key|
  {
    key[..LastColon(key, |key|) - 1]
  }

  predicate HasColon(key: string) {
    LastColon(key, |key|) > 0
  }

  /** `p` is `key`, or `key` is `p` with ":"-segments added. */
  predicate Family(p: string, key: string) {
    p == key || (|p| < |key| && key[..|p|] == p && key[|p|] == ':')
  }

  /** The specification of the label walk. */
  function Longest(reg: Registry, key: string): Option<Worker>
    decreases |key|
  {
    if key == "" then None
    else if key in reg then Some(reg[key])
    else if !HasColon(key) then None
    else Longest(reg, Parent(key))
  }

  /** `registered` */
  method Registered(reg: Registry, agent: Option<string>) returns (r: Option<Worker>)
    ensures r == Longest(reg, Key(agent))
  {
    var key := Key(agent);
    while key != ""
      invariant Longest(reg, key) == Longest(reg, Key(agent))
      decreases |key|
    {
      if key in reg { return Some(reg[key]); }
      if !HasColon(key) { break; }
      key := Parent(key);
    }
    return None;
  }

  function Key(agent: Option<string>): string {
    if agent.None? then "" else Strip(agent.value)
  }

  function Resolve(reg: Registry, agent: Option<string>): Worker {
    match Longest(reg, Key(agent)) case Some(w) => w case None => Restricted
  }

  /** What a session row records of its creation. */
  datatype Created = Created(worker: Worker, boundUid: Option<int>, refused: bool)

  /** `resolve_at_create` */
  function ResolveAtCreate(reg: Registry, agent: Option<string>, peer: Option<int>): Created {
    var w := Resolve(reg, agent);
    if w.uids == {} then Created(w, None, false)
    else if peer.Some? && peer.value in w.uids then Created(w, peer, false)
    else Created(Restricted, None, true)
  }

  datatype Session = Session(agent: Option<string>, boundWorker: string, boundUid: Option<int>)

  function Recorded(agent: Option<string>, c: Created): Session {
    Session(agent, if c.boundUid.Some? then c.worker.name else "", c.boundUid)
  }

  /** `resolve_for_session`: the class, and whether it is identity-bound. */
  function ResolveForSession(reg: Registry, s: Session): (Worker, bool) {
    var w := Resolve(reg, s.agent);
    if w.uids == {} then (if s.boundWorker != "" then (Restricted, false) else (w, false))
    else if s.boundWorker == w.name && s.boundUid.Some? && s.boundUid.value in w.uids then (w, true)
    else (Restricted, false)
  }

  // ---------------------------------------------------------------- bound families

  /** The rule for one class and one registered name above it. */
  predicate Obeys(reg: Registry, name: string, above: string) {
    above in reg && name in reg && reg[above].uids != {} ==> reg[name].uids != {} && reg[name].uids <= reg[above].uids
  }

  ghost predicate FamiliesBound(reg: Registry) {
    forall name, above :: name in reg && above != name && Family(above, name) ==> Obeys(reg, name, above)
  }

  lemma LastColonAt(s: string, n: nat, i: nat)
    requires i < n <= |s| && s[i] == ':' && forall k :: i < k < n ==> s[k] != ':'
    ensures LastColon(s, n) == i + 1
  {
    if n > i + 1 { LastColonAt(s, n - 1, i); }
  }

  /** What stands above a key stands above or is its parent. */
  lemma AboveParent(p: string, key: string)
    requires Family(p, key) && p != key
    ensures HasColon(key) && Family(p, Parent(key))
  {
    var i := LastColon(key, |key|);
    assert key[|p|] == ':';
    if i > |p| + 1 {
      assert key[..i - 1][..|p|] == key[..|p|] && key[..i - 1][|p|] == key[|p|];
    } else {
      assert key[..i - 1] == p;
    }
  }

  lemma ParentAbove(key: string)
    requires HasColon(key)
    ensures Family(Parent(key), key) && Parent(key) != key
  {
  }

  lemma FamilyTrans(a: string, b: string, c: string)
    requires Family(a, b) && Family(b, c)
    ensures Family(a, c)
  {
    if a != b && b != c {
      assert c[..|a|] == c[..|b|][..|a|];
      assert c[|a|] == c[..|b|][|a|];
    }
  }

  /** `_check_bound_families`; `names` lists the registry's classes. */
  method CheckBoundFamilies(reg: Registry, names: seq<string>) returns (ok: bool)
    requires forall name :: name in reg <==> name in names
    ensures ok <==> FamiliesBound(reg)
  {
    for i := 0 to |names|
      invariant forall k, above :: 0 <= k < i && above != names[k] && Family(above, names[k]) ==>
          Obeys(reg, names[k], above)
    {
      var name := names[i];
      assert name in names;
      var key := name;
      while HasColon(key)
        invariant Family(key, name)
        invariant forall above :: above != name && Family(above, name) && !Family(above, key) ==>
            Obeys(reg, name, above)
        invariant key == name || Obeys(reg, name, key)
        decreases |key|
      {
        ghost var was := key;
        key := Parent(key);
        ParentAbove(was);
        FamilyTrans(key, was, name);
        if key in reg && reg[key].uids != {} && !(reg[name].uids != {} && reg[name].uids <= reg[key].uids) {
          assert !Obeys(reg, name, key);
          return false;
        }
        forall above | above != name && Family(above, name) && !Family(above, key) ensures Obeys(reg, name, above) {
          if Family(above, was) && above != was { AboveParent(above, was); }
        }
      }
      forall above | above != name && Family(above, name) ensures Obeys(reg, name, above) {
        if Family(above, key) && above != key { AboveParent(above, key); }
      }
    }
    forall name, above | name in reg && above != name && Family(above, name) ensures Obeys(reg, name, above) {
      var k :| 0 <= k < |names| && names[k] == name;
    }
    return true;
  }

  // ---------------------------------------------------------------- what a label can get

  /** The walk finds the longest registered prefix of the agent, if there is any. */
  lemma {:induction false} LongestWins(reg: Registry, key: string)
    requires WellFormed(reg)
    ensures match Longest(reg, key)
            case Some(w) => w.name in reg && reg[w.name] == w && Family(w.name, key)
                            && forall p :: p in reg && Family(p, key) ==> Family(p, w.name)
            case None => forall p :: p in reg ==> !Family(p, key)
    decreases |key|
  {
    if key != "" && key !in reg {
      forall p | p in reg && Family(p, key) ensures HasColon(key) && Family(p, Parent(key)) {
        AboveParent(p, key);
      }
      if HasColon(key) {
        LongestWins(reg, Parent(key));
        ParentAbove(key);
        var found := Longest(reg, Parent(key));
        if found.Some? { FamilyTrans(found.value.name, Parent(key), key); }
        forall p | p in reg && Family(p, Parent(key)) ensures Family(p, key) {
          FamilyTrans(p, Parent(key), key);
        }
      }
    }
  }

  /** The longest registered name the label is, or extends by ":"-segments. */
  ghost predicate LongestPrefix(reg: Registry, key: string, p: string) {
    p in reg && Family(p, key) && forall q :: q in reg && Family(q, key) ==> |q| <= |p|
  }

  /** What a label gets at creation and at every later look, by its longest registered prefix: that class
      unbound if the class is; bound to the peer's account if the class lists it; and otherwise the
      restricted class. A label with no registered prefix gets the restricted class. */
  lemma LabelGets(reg: Registry, agent: Option<string>, peer: Option<int>, s: Session)
    requires WellFormed(reg) && s.agent == agent
    ensures var key := if agent.Some? then Strip(agent.value) else "";
            var restricted := Worker("restricted", {}, false, false);
            && (forall p :: LongestPrefix(reg, key, p) ==>
                  ResolveAtCreate(reg, agent, peer) ==
                    if reg[p].uids == {} then Created(reg[p], None, false)
                    else if peer.Some? && peer.value in reg[p].uids then Created(reg[p], peer, false)
                    else Created(restricted, None, true))
            && (forall p :: LongestPrefix(reg, key, p) ==>
                  ResolveForSession(reg, s) ==
                    if reg[p].uids == {} && s.boundWorker == "" then (reg[p], false)
                    else if s.boundWorker == p && s.boundUid.Some? && s.boundUid.value in reg[p].uids
                    then (reg[p], true)
                    else (restricted, false))
            && ((forall p :: p in reg ==> !Family(p, key)) ==>
                  && ResolveAtCreate(reg, agent, peer) == Created(restricted, None, false)
                  && ResolveForSession(reg, s) == (restricted, false))
  {
    var key := Key(agent);
    LongestWins(reg, key);
    forall p | LongestPrefix(reg, key, p) ensures Longest(reg, key) == Some(reg[p]) {
      assert Longest(reg, key).Some? && Family(p, Longest(reg, key).value.name);
    }
  }

  /** If any registered prefix of a label is bound to accounts, then a peer using the label gets the
      restricted class or a class bound to accounts that every bound prefix lists, the peer's among
      them. */
  lemma BoundFamilyHolds(reg: Registry, agent: Option<string>, peer: Option<int>, p: string)
    requires WellFormed(reg) && FamiliesBound(reg)
    requires p in reg && reg[p].uids != {} && Family(p, Key(agent))
    ensures var c := ResolveAtCreate(reg, agent, peer);
            || (c.worker == Restricted && c.boundUid.None? && c.refused)
            || (c.worker.uids != {} && c.worker.uids <= reg[p].uids && c.boundUid == peer && peer.Some?
               && peer.value in c.worker.uids)
  {
    LongestWins(reg, Key(agent));
    var w := Resolve(reg, agent);
    assert Family(p, w.name);
    if p != w.name { assert Obeys(reg, w.name, p); }
  }

  /** The session a creation records resolves to the class and binding the creation gave. */
  lemma SessionKeepsItsClass(reg: Registry, agent: Option<string>, peer: Option<int>)
    requires WellFormed(reg)
    ensures var c := ResolveAtCreate(reg, agent, peer);
            ResolveForSession(reg, Recorded(agent, c)) == (c.worker, c.boundUid.Some?)
  {
    FoundIsNamed(reg, agent);
  }

  lemma FoundIsNamed(reg: Registry, agent: Option<string>)
    requires WellFormed(reg)
    ensures var w := Resolve(reg, agent); w.uids != {} ==> w.name != ""
  {
    LongestWins(reg, Key(agent));
  }

  /** Under any later registry a session is bound only as it was at creation, and a session that was
      bound never falls back to an unbound class. */
  lemma BindingNeverGrows(reg: Registry, later: Registry, agent: Option<string>, peer: Option<int>)
    requires WellFormed(reg) && WellFormed(later)
    ensures var c := ResolveAtCreate(reg, agent, peer); var (w, bound) := ResolveForSession(later, Recorded(agent, c));
            && (bound ==> c.boundUid.Some? && w.name == c.worker.name && c.boundUid.value in w.uids)
            && (c.boundUid.Some? && !bound ==> w == Restricted)
  {
    FoundIsNamed(reg, agent);
    FoundIsNamed(later, agent);
  }
}
