/** The lock de-duplication plan of scripts/dedupe_scope_locks.py. */
module DedupeLocks {
  import opened Wrappers
  import opened ScopePaths

  /** A session's lane: its anchor, and a pattern's canonical form under it. */
  datatype Lane = Lane(sid: string, anchor: string, lane: string)

  /** A lock row and what the plan reads of its owner. `id` stands for the place of the row's id in
      the order of ids; `ownerLive` is what `live_exclusive_owner` answers. */
  datatype Row = Row(id: int, lane: Lane, exclusive: bool, authority: bool, expiresAt: int, ownerLive: bool)

  /** A lock as it is read, joined with its session. */
  datatype LockRow = LockRow(id: int, sid: string, repoRoot: string, pattern: string, exclusive: bool, authority: bool,
                             expiresAt: int, ownerLive: bool)

  datatype Report = Report(groups: nat, keep: seq<Row>, remove: seq<Row>, retained: seq<Row>)

  function LaneOf(sid: string, repoRoot: string, pattern: string): Lane {
    Lane(sid, CanonicalRoot(repoRoot), CanonicalPattern(pattern, repoRoot))
  }

  function RowOf(l: LockRow): Row {
    Row(l.id, LaneOf(l.sid, l.repoRoot, l.pattern), l.exclusive, l.authority, l.expiresAt, l.ownerLive)
  }

  function RowsOf(locks: seq<LockRow>): (rows: seq<Row>)
    ensures |rows| == |locks| && forall k :: 0 <= k < |locks| ==> rows[k].id == locks[k].id
  {
    seq(|locks|, k requires 0 <= k < |locks| => RowOf(locks[k]))
  }

  predicate IsLive(r: Row, now: int) {
    r.expiresAt > now || (r.exclusive && r.ownerLive)
  }

  predicate Less(a: bool, b: bool) {
    !a && b
  }

  /** `a` ranks below `b`: live, then exclusive, then authority-bearing, then expiry, then id. */
  predicate Below(a: Row, b: Row, now: int) {
    || Less(IsLive(a, now), IsLive(b, now))
    || (IsLive(a, now) == IsLive(b, now) &&
        (|| Less(a.exclusive, b.exclusive)
         || (a.exclusive == b.exclusive &&
             (|| Less(a.authority, b.authority)
              || (a.authority == b.authority &&
                  (a.expiresAt < b.expiresAt || (a.expiresAt == b.expiresAt && a.id < b.id)))))))
  }

  predicate DistinctIds(rows: seq<Row>) {
    forall i, j :: 0 <= i < j < |rows| ==> rows[i].id != rows[j].id
  }

  /** The rows of one lane. */
  function Group(rows: seq<Row>, k: Lane): seq<Row> {
    if rows == [] then []
    else Group(rows[..|rows| - 1], k) + (if rows[|rows| - 1].lane == k then [rows[|rows| - 1]] else [])
  }

  function Lanes(rows: seq<Row>): set<Lane> {
    set k | 0 <= k < |rows| :: rows[k].lane
  }

  function DuplicatedLanes(rows: seq<Row>): set<Lane> {
    set k | k in Lanes(rows) && |Group(rows, k)| >= 2
  }

  predicate IsStrongest(group: seq<Row>, r: Row, now: int) {
    r in group && forall o :: o in group ==> o == r || Below(o, r, now)
  }

  /** The report's buckets: every row of these lanes is in exactly one of them, once. */
  ghost predicate Planned(rows: seq<Row>, now: int, ks: set<Lane>, report: Report) {
    && report.groups == |ks| == |report.keep|
    && DistinctIds(report.keep) && DistinctIds(report.remove) && DistinctIds(report.retained)
    && (forall r :: r in report.keep <==> r in rows && r.lane in ks && IsStrongest(Group(rows, r.lane), r, now))
    && (forall r :: r in report.remove <==>
       r in rows && r.lane in ks && !IsStrongest(Group(rows, r.lane), r, now) && !r.authority)
    && (forall r :: r in report.retained <==>
       r in rows && r.lane in ks && !IsStrongest(Group(rows, r.lane), r, now) && r.authority)
  }

  // ---------------------------------------------------------------- locks and their lanes

  /** Two locks of one session whose roots are one directory and whose patterns say the same under it. */
  predicate OneLane(a: LockRow, b: LockRow) {
    && a.sid == b.sid && CanonicalRoot(a.repoRoot) == CanonicalRoot(b.repoRoot)
    && CanonicalPattern(a.pattern, a.repoRoot) == CanonicalPattern(b.pattern, b.repoRoot)
  }

  /** Not expired, or an exclusive lock whose owner lives. */
  predicate Alive(l: LockRow, now: int) {
    now < l.expiresAt || (l.exclusive && l.ownerLive)
  }

  /** The first difference decides: being live, exclusive, bearing authority, expiring later, the id. */
  predicate Outranks(a: LockRow, b: LockRow, now: int) {
    if Alive(a, now) != Alive(b, now) then Alive(a, now)
    else if a.exclusive != b.exclusive then a.exclusive
    else if a.authority != b.authority then a.authority
    else if a.expiresAt != b.expiresAt then a.expiresAt > b.expiresAt
    else a.id > b.id
  }

  ghost predicate HasTwin(locks: seq<LockRow>, k: nat)
    requires k < |locks|
  {
    exists j :: 0 <= j < |locks| && j != k && OneLane(locks[j], locks[k])
  }

  ghost predicate IsTop(locks: seq<LockRow>, k: nat, now: int)
    requires k < |locks|
  {
    forall j :: 0 <= j < |locks| && j != k && OneLane(locks[j], locks[k]) ==> Outranks(locks[k], locks[j], now)
  }

  predicate HasId(rows: seq<Row>, id: int) {
    exists k :: 0 <= k < |rows| && rows[k].id == id
  }

  predicate DistinctLocks(locks: seq<LockRow>) {
    forall i, j :: 0 <= i < j < |locks| ==> locks[i].id != locks[j].id
  }

  /** What the plan does with the k-th lock. One without a twin in its lane is not in it; of the others the
      lane's top is kept, what bears authority retained, and the rest removed. */
  ghost predicate LockPlanned(locks: seq<LockRow>, k: nat, now: int, report: Report)
    requires k < |locks|
  {
    && (HasId(report.keep, locks[k].id) <==> HasTwin(locks, k) && IsTop(locks, k, now))
    && (HasId(report.remove, locks[k].id) <==>
          HasTwin(locks, k) && !IsTop(locks, k, now) && locks[k].authority == false)
    && (HasId(report.retained, locks[k].id) <==>
          HasTwin(locks, k) && !IsTop(locks, k, now) && locks[k].authority == true)
  }

  ghost predicate LocksPlanned(locks: seq<LockRow>, now: int, report: Report) {
    && (forall k :: 0 <= k < |locks| ==> LockPlanned(locks, k, now, report))
    && (forall r :: r in report.keep + report.remove + report.retained ==>
       exists k :: 0 <= k < |locks| && locks[k].id == r.id)
    && DistinctIds(report.keep) && DistinctIds(report.remove) && DistinctIds(report.retained)
    && report.groups == |report.keep|
  }

  lemma BelowIsOutranked(a: LockRow, b: LockRow, now: int)
    ensures Below(RowOf(a), RowOf(b), now) <==> Outranks(b, a, now)
  {
  }

  lemma TwinsGroup(locks: seq<LockRow>, k: nat)
    requires DistinctLocks(locks) && k < |locks|
    ensures HasTwin(locks, k) <==> RowOf(locks[k]).lane in DuplicatedLanes(RowsOf(locks))
  {
    var rows := RowsOf(locks);
    var r := rows[k];
    var group := Group(rows, r.lane);
    GroupIs(rows, r.lane);
    assert r in rows && r in group;
    assert r.lane in Lanes(rows);
    if |group| >= 2 {
      var other := if group[0].id != r.id then group[0] else group[1];
      assert other in group;
      var j :| 0 <= j < |rows| && rows[j] == other;
      assert OneLane(locks[j], locks[k]);
    }
    if HasTwin(locks, k) {
      var j :| 0 <= j < |locks| && j != k && OneLane(locks[j], locks[k]);
      assert rows[j] in rows && rows[j] in group && rows[j].id != r.id;
    }
  }

  lemma TopIsStrongest(locks: seq<LockRow>, k: nat, now: int)
    requires DistinctLocks(locks) && k < |locks|
    ensures var r := RowOf(locks[k]);
            IsTop(locks, k, now) <==> IsStrongest(Group(RowsOf(locks), r.lane), r, now)
  {
    var rows := RowsOf(locks);
    var r := rows[k];
    GroupIs(rows, r.lane);
    assert r in rows;
    if IsTop(locks, k, now) {
      forall o | o in Group(rows, r.lane) ensures o == r || Below(o, r, now) {
        var j :| 0 <= j < |rows| && rows[j] == o;
        BelowIsOutranked(locks[j], locks[k], now);
        assert j != k ==> OneLane(locks[j], locks[k]);
      }
    }
    if IsStrongest(Group(rows, r.lane), r, now) {
      forall j | 0 <= j < |locks| && j != k && OneLane(locks[j], locks[k]) ensures Outranks(locks[k], locks[j], now) {
        assert rows[j] in rows && rows[j].id != r.id;
        BelowIsOutranked(locks[j], locks[k], now);
      }
    }
  }

  lemma BucketHas(locks: seq<LockRow>, k: nat, some: seq<Row>)
    requires DistinctLocks(locks) && k < |locks| && forall r :: r in some ==> r in RowsOf(locks)
    ensures HasId(some, locks[k].id) <==> RowOf(locks[k]) in some
  {
    var rows := RowsOf(locks);
    assert rows[k] in rows;
    if HasId(some, locks[k].id) {
      var j :| 0 <= j < |some| && some[j].id == locks[k].id;
      assert some[j] in some;
      IdsTell(rows, some[j], rows[k]);
    }
  }

  /** The plan over rows is the plan over locks. */
  lemma PlanOfLocks(locks: seq<LockRow>, now: int, report: Report)
    requires DistinctLocks(locks) && Planned(RowsOf(locks), now, DuplicatedLanes(RowsOf(locks)), report)
    ensures LocksPlanned(locks, now, report)
  {
    var rows := RowsOf(locks);
    forall k | 0 <= k < |locks| ensures LockPlanned(locks, k, now, report) {
      TwinsGroup(locks, k);
      TopIsStrongest(locks, k, now);
      BucketHas(locks, k, report.keep);
      BucketHas(locks, k, report.remove);
      BucketHas(locks, k, report.retained);
      assert rows[k] in rows;
    }
    forall r | r in report.keep + report.remove + report.retained
      ensures exists k :: 0 <= k < |locks| && locks[k].id == r.id
    {
      assert r in rows;
      var k :| 0 <= k < |rows| && rows[k] == r;
    }
  }

  // ---------------------------------------------------------------- the plan

  method Strongest(group: seq<Row>, now: int) returns (best: Row)
    requires group != [] && DistinctIds(group)
    ensures IsStrongest(group, best, now)
  {
    var at := 0;
    for i := 1 to |group|
      invariant 0 <= at < i
      invariant forall k :: 0 <= k < i && k != at ==> Below(group[k], group[at], now)
    {
      assert group[at].id != group[i].id;
      if Below(group[at], group[i], now) { at := i; }
    }
    best := group[at];
  }

  method BuildGroups(rows: seq<Row>) returns (groups: map<Lane, seq<Row>>)
    ensures groups.Keys == Lanes(rows)
    ensures forall k :: k in groups ==> groups[k] == Group(rows, k)
  {
    groups := map[];
    for i := 0 to |rows|
      invariant groups.Keys == Lanes(rows[..i])
      invariant forall k :: Group(rows[..i], k) == if k in groups then groups[k] else []
    {
      var k := rows[i].lane;
      NextLane(rows[..i], rows[i]);
      assert rows[..i + 1] == rows[..i] + [rows[i]];
      groups := groups[k := (if k in groups then groups[k] else []) + [rows[i]]];
    }
    assert rows[..|rows|] == rows;
  }

  lemma NextLane(before: seq<Row>, r: Row)
    ensures Lanes(before + [r]) == Lanes(before) + {r.lane}
    ensures forall k :: Group(before + [r], k) == Group(before, k) + if r.lane == k then [r] else []
  {
    var rows := before + [r];
    assert rows[..|before|] == before;
    forall k ensures k in Lanes(rows) <==> k in Lanes(before) || k == r.lane {
      if k in Lanes(before) {
        var i :| 0 <= i < |before| && before[i].lane == k;
        assert rows[i].lane == k;
      }
      assert rows[|before|].lane == r.lane;
    }
  }

  /** `plan`: each lock's lane is its pattern's canonical form under its own session's root. */
  method Plan(locks: seq<LockRow>, now: int) returns (report: Report)
    requires DistinctLocks(locks)
    ensures Planned(RowsOf(locks), now, DuplicatedLanes(RowsOf(locks)), report)
    ensures LocksPlanned(locks, now, report)
  {
    report := PlanRows(RowsOf(locks), now);
    PlanOfLocks(locks, now, report);
  }

  /** The plan over rows that know their lane; the order of the lanes in the report is left open. */
  method PlanRows(rows: seq<Row>, now: int) returns (report: Report)
    requires DistinctIds(rows)
    ensures Planned(rows, now, DuplicatedLanes(rows), report)
  {
    var groups := BuildGroups(rows);
    report := PlanGroups(rows, now, groups, DuplicatedLanes(rows));
  }

  method PlanGroups(rows: seq<Row>, now: int, groups: map<Lane, seq<Row>>, ghost duplicated: set<Lane>)
    returns (report: Report)
    requires DistinctIds(rows) && forall k :: k in groups ==> groups[k] == Group(rows, k)
    requires forall k :: k in duplicated <==> k in groups && |groups[k]| >= 2
    ensures Planned(rows, now, duplicated, report)
  {
    report := Report(0, [], [], []);
    var left := groups.Keys;
    ghost var planned: set<Lane> := {};
    while left != {}
      invariant left <= groups.Keys
      invariant planned <= duplicated <= planned + left && planned !! left
      invariant Planned(rows, now, planned, report)
      decreases left
    {
      var k :| k in left;
      left := left - {k};
      if |groups[k]| >= 2 {
        report := PlanGroup(rows, now, groups[k], planned, report, k);
        planned := planned + {k};
      }
    }
    assert planned == duplicated;
  }

  /** One duplicated lane's rows go to their buckets. */
  method PlanGroup(rows: seq<Row>, now: int, group: seq<Row>, ghost ks: set<Lane>, report: Report, ghost k: Lane)
    returns (next: Report)
    requires DistinctIds(rows) && Planned(rows, now, ks, report) && k !in ks && group == Group(rows, k) && group != []
    ensures Planned(rows, now, ks + {k}, next)
  {
    GroupIs(rows, k);
    var keeper := Strongest(group, now);
    var remove, retained := Rest(group, keeper);
    PlanOne(rows, now, ks, report, k, keeper, remove, retained);
    next := Report(report.groups + 1, report.keep + [keeper], report.remove + remove, report.retained + retained);
  }

  method Rest(group: seq<Row>, keeper: Row) returns (remove: seq<Row>, retained: seq<Row>)
    requires DistinctIds(group)
    ensures DistinctIds(remove) && forall r :: r in remove <==> r in group && r != keeper && !r.authority
    ensures DistinctIds(retained) && forall r :: r in retained <==> r in group && r != keeper && r.authority
  {
    remove, retained := [], [];
    for i := 0 to |group|
      invariant DistinctIds(remove) && forall r :: r in remove <==> r in group[..i] && r != keeper && !r.authority
      invariant DistinctIds(retained) && forall r :: r in retained <==> r in group[..i] && r != keeper && r.authority
    {
      assert group[..i + 1] == group[..i] + [group[i]];
      NewId(group, i, remove);
      NewId(group, i, retained);
      if group[i] != keeper {
        if group[i].authority { retained := retained + [group[i]]; } else { remove := remove + [group[i]]; }
      }
    }
    assert group[..|group|] == group;
  }

  lemma NewId(group: seq<Row>, i: nat, some: seq<Row>)
    requires i < |group| && DistinctIds(group) && forall r :: r in some ==> r in group[..i]
    ensures forall k :: 0 <= k < |some| ==> some[k].id != group[i].id
  {
    forall k | 0 <= k < |some| ensures some[k].id != group[i].id {
      assert some[k] in some;
      var j :| 0 <= j < i && group[j] == some[k];
    }
  }

  // ---------------------------------------------------------------- lemmas of the plan

  lemma {:induction false} GroupIs(rows: seq<Row>, k: Lane)
    ensures forall r :: r in Group(rows, k) <==> r in rows && r.lane == k
    ensures DistinctIds(rows) ==> DistinctIds(Group(rows, k))
  {
    if rows != [] {
      var n := |rows| - 1;
      GroupIs(rows[..n], k);
      assert rows == rows[..n] + [rows[n]];
      if DistinctIds(rows) { NewId(rows, n, Group(rows[..n], k)); }
    }
  }

  lemma OneStrongest(group: seq<Row>, a: Row, b: Row, now: int)
    requires IsStrongest(group, a, now) && IsStrongest(group, b, now)
    ensures a == b
  {
  }

  lemma IdsTell(rows: seq<Row>, a: Row, b: Row)
    requires DistinctIds(rows) && a in rows && b in rows && a.id == b.id
    ensures a == b
  {
  }

  lemma Appended(rows: seq<Row>, xs: seq<Row>, ys: seq<Row>)
    requires DistinctIds(rows) && DistinctIds(xs) && DistinctIds(ys)
    requires forall r :: r in xs || r in ys ==> r in rows
    requires forall r :: r in xs ==> r !in ys
    ensures DistinctIds(xs + ys)
  {
    forall i, j | 0 <= i < |xs| && 0 <= j < |ys| ensures xs[i].id != ys[j].id {
      assert xs[i] in xs && ys[j] in ys;
      if xs[i].id == ys[j].id { IdsTell(rows, xs[i], ys[j]); }
    }
  }

  lemma PlanOne(rows: seq<Row>, now: int, ks: set<Lane>, report: Report, k: Lane, keeper: Row, remove: seq<Row>,
                retained: seq<Row>)
    requires DistinctIds(rows) && Planned(rows, now, ks, report) && k !in ks
    requires IsStrongest(Group(rows, k), keeper, now)
    requires DistinctIds(remove) && forall r :: r in remove <==> r in Group(rows, k) && r != keeper && !r.authority
    requires DistinctIds(retained) && forall r :: r in retained <==> r in Group(rows, k) && r != keeper && r.authority
    ensures Planned(rows, now, ks + {k},
                    Report(report.groups + 1, report.keep + [keeper], report.remove + remove,
                      report.retained + retained))
  {
    GroupIs(rows, k);
    forall r | r in Group(rows, k) && r != keeper ensures !IsStrongest(Group(rows, k), r, now) {
      if IsStrongest(Group(rows, k), r, now) { OneStrongest(Group(rows, k), r, keeper, now); }
    }
    Appended(rows, report.keep, [keeper]);
    Appended(rows, report.remove, remove);
    Appended(rows, report.retained, retained);
  }

  // ---------------------------------------------------------------- what the plan guarantees

  /** Every removed row leaves a keeper of its own lane that ranks above it: live if the row was
      live, and exclusive too if the row was live and exclusive. No authority-bearing row goes. */
  lemma RemovedIsCovered(rows: seq<Row>, now: int, report: Report, r: Row)
    requires DistinctIds(rows) && Planned(rows, now, DuplicatedLanes(rows), report) && r in report.remove
    ensures !r.authority && r in rows
    ensures exists keeper ::
        && keeper in report.keep && keeper !in report.remove && keeper.lane == r.lane && Below(r, keeper, now)
        && (IsLive(r, now) ==> IsLive(keeper, now))
        && (IsLive(r, now) && r.exclusive ==> keeper.exclusive)
  {
    var keeper := KeeperOf(rows, now, report, r);
  }

  lemma KeeperOf(rows: seq<Row>, now: int, report: Report, r: Row) returns (keeper: Row)
    requires DistinctIds(rows) && Planned(rows, now, DuplicatedLanes(rows), report) && r in report.remove
    ensures keeper in rows && keeper in report.keep && keeper !in report.remove
    ensures keeper.lane == r.lane && Below(r, keeper, now)
  {
    GroupIs(rows, r.lane);
    keeper := StrongestOf(Group(rows, r.lane), now);
    assert keeper in report.keep;
  }

  /** The same of locks: each removed lock bears no authority, and a lock of the same session, root and
      canonical pattern that outranks it is kept. */
  lemma RemovedLockIsCovered(locks: seq<LockRow>, now: int, report: Report, k: nat)
    requires DistinctLocks(locks) && Planned(RowsOf(locks), now, DuplicatedLanes(RowsOf(locks)), report)
    requires k < |locks| && HasId(report.remove, locks[k].id)
    ensures locks[k].authority == false
    ensures exists j :: 0 <= j < |locks| && CoveredBy(locks, k, j, now, report)
  {
    var rows := RowsOf(locks);
    BucketHas(locks, k, report.remove);
    var keeper := KeeperOf(rows, now, report, RowOf(locks[k]));
    var j :| 0 <= j < |rows| && rows[j] == keeper;
    BucketHas(locks, j, report.keep);
    BucketHas(locks, j, report.remove);
    BelowIsOutranked(locks[k], locks[j], now);
    assert CoveredBy(locks, k, j, now, report);
  }

  /** Lock `j` is kept and stands for lock `k`. */
  ghost predicate CoveredBy(locks: seq<LockRow>, k: nat, j: nat, now: int, report: Report)
    requires k < |locks| && j < |locks|
  {
    && HasId(report.keep, locks[j].id) && !HasId(report.remove, locks[j].id)
    && OneLane(locks[j], locks[k]) && Outranks(locks[j], locks[k], now)
    && (Alive(locks[k], now) ==> Alive(locks[j], now))
    && (Alive(locks[k], now) && locks[k].exclusive ==> locks[j].exclusive)
  }

  lemma {:induction false} StrongestOf(group: seq<Row>, now: int) returns (best: Row)
    requires group != [] && DistinctIds(group)
    ensures IsStrongest(group, best, now)
  {
    var n := |group| - 1;
    best := group[n];
    assert group == group[..n] + [group[n]];
    if n > 0 {
      var before := StrongestOf(group[..n], now);
      assert before.id != group[n].id by {
        var at :| 0 <= at < n && group[at] == before;
      }
      if Below(group[n], before, now) { best := before; }
    }
  }

  /** A lane with a live row keeps a live one, and one with a live exclusive row keeps such a one. */
  lemma KeeperIsLive(rows: seq<Row>, now: int, report: Report, keeper: Row, r: Row)
    requires DistinctIds(rows) && Planned(rows, now, DuplicatedLanes(rows), report)
    requires keeper in report.keep && r in rows && r.lane == keeper.lane
    ensures IsLive(r, now) ==> IsLive(keeper, now)
    ensures IsLive(r, now) && r.exclusive ==> IsLive(keeper, now) && keeper.exclusive
  {
    GroupIs(rows, r.lane);
  }

  /** Planning again, once the removed rows are gone and at the same time, removes nothing. */
  lemma ReplanRemovesNothing(rows: seq<Row>, now: int, report: Report, left: seq<Row>, again: Report)
    requires DistinctIds(rows) && Planned(rows, now, DuplicatedLanes(rows), report)
    requires DistinctIds(left) && forall r :: r in left <==> r in rows && r !in report.remove
    requires Planned(left, now, DuplicatedLanes(left), again)
    ensures again.remove == []
  {
    if again.remove != [] {
      var r := again.remove[0];
      assert r in again.remove;
      OnlyKeepersAndAuthority(rows, now, report, left, r);
    }
  }

  /** A row left without authority is the strongest of its lane, still. */
  lemma OnlyKeepersAndAuthority(rows: seq<Row>, now: int, report: Report, left: seq<Row>, r: Row)
    requires DistinctIds(rows) && Planned(rows, now, DuplicatedLanes(rows), report)
    requires DistinctIds(left) && forall x :: x in left <==> x in rows && x !in report.remove
    requires r in left && !r.authority && r.lane in DuplicatedLanes(left)
    ensures IsStrongest(Group(left, r.lane), r, now)
  {
    GroupIs(rows, r.lane);
    GroupIs(left, r.lane);
    assert r.lane in Lanes(rows) by {
      var i :| 0 <= i < |rows| && rows[i] == r;
    }
    if |Group(rows, r.lane)| < 2 {
      TwoOf(Group(left, r.lane), Group(rows, r.lane));
    }
    assert r.lane in DuplicatedLanes(rows);
  }

  lemma TwoOf(some: seq<Row>, all: seq<Row>)
    requires DistinctIds(some) && |some| >= 2 && forall r :: r in some ==> r in all
    ensures |all| >= 2
  {
    assert some[0] in some && some[1] in some && some[0] != some[1];
  }
}
