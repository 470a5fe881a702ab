/**
 The PostgreSQL driver's statements, each read as one atomic step over the whole
 table, and why they agree with the in-memory store.

 A statement selects rows by a predicate and rewrites them; the driver then reads the
 affected-row count and, when it is zero, re-reads the row to say why.
 */
module SqlDriver {
  import opened Jobs
  import opened Ordering
  import opened JobStore
  import opened Journal

  const MAX_INT32 := 0x7fff_ffff

  /** Narrows an attempt for the wire by clamping. */
  function AttemptArg(attempt: int): int {
    if attempt < 0 then 0 else if attempt > MAX_INT32 then MAX_INT32 else attempt
  }

  /** Either a table and the driver's verdict, or a database error that changed nothing. */
  datatype SqlResult = Done(table: Table, verdict: Option<Error>) | DbError

  // ------------------------------------------------------------ Mark statements

  predicate Guard(row: Row, id: int, attempt: int) {
    row.id == id && row.attempt == attempt && row.state == Running
  }

  /** The SET list of each Mark statement. errors || NULL is NULL, which the column refuses. */
  function SetList(row: Row, outcome: Outcome, now: Time): Row {
    match outcome
    case Complete => row.(state := Completed, finalizedAt := Some(now), leasedUntil := None)
    case Cancel(d) => row.(state := Cancelled, finalizedAt := Some(now), leasedUntil := None, errors := Concat(row, d))
    case Die(d) => row.(state := Dead, finalizedAt := Some(now), leasedUntil := None, errors := Concat(row, d))
    case Retry(at, d) => row.(state := Retryable, scheduledAt := at, leasedUntil := None, errors := Concat(row, d))
    case Snooze(at) =>
      row.(state := Scheduled, scheduledAt := at, leasedUntil := None,
           attempt := if row.attempt - 1 >= 0 then row.attempt - 1 else 0)
  }

  function Concat(row: Row, d: Option<Detail>): seq<Detail> {
    if d.Some? then row.errors + [d.value] else row.errors
  }

  predicate WritesNull(outcome: Outcome) {
    match outcome
    case Complete => false
    case Snooze(_) => false
    case Cancel(d) => d.None?
    case Die(d) => d.None?
    case Retry(_, d) => d.None?
  }

  function Matched(t: Table, id: int, attempt: int): set<int> {
    set k | k in t && Guard(t[k], id, attempt)
  }

  function UpdateMarked(t: Table, id: int, attempt: int, outcome: Outcome, now: Time): Table {
    map k | k in t :: if Guard(t[k], id, attempt) then SetList(t[k], outcome, now) else t[k]
  }

  /** finalizeFailure: why a guarded update matched no row. */
  function Explain(t: Table, lease: Lease): Error {
    if lease.id !in t then NotFound
    else if t[lease.id].state != Running then InvalidTransition
    else LeaseLost
  }

  ghost function SqlMark(t: Table, lease: Lease, outcome: Outcome, now: Time): SqlResult {
    var arg := AttemptArg(lease.attempt);
    var affected := |Matched(t, lease.id, arg)|;
    if affected > 0 && WritesNull(outcome) then DbError
    else
      var after := UpdateMarked(t, lease.id, arg, outcome, now);
      Done(after, if affected == 0 then Some(Explain(after, lease)) else None)
  }

  /** What a run of the store guarantees about running rows, and what the int column allows. */
  ghost predicate Columns(t: Table) {
    forall k | k in t :: t[k].id == k && t[k].attempt <= MAX_INT32 && (t[k].state.Running? ==> t[k].attempt >= 1)
  }

  lemma ReachableColumns(w: World)
    requires Inv(w) && forall k | k in w.store.jobs :: w.store.jobs[k].attempt <= MAX_INT32
    ensures Columns(w.store.jobs)
  {
    forall k | k in w.store.jobs && w.store.jobs[k].state.Running? ensures w.store.jobs[k].attempt >= 1 {
      assert Consistent(w.store.jobs[k], w.journal[k]);
      FirstAttempts(w.journal[k].claims, |w.journal[k].claims| - 1);
    }
  }

  /** The clamp can only be wrong about a row at the very top of the column. */
  predicate ClampCollides(t: Table, lease: Lease) {
    && lease.attempt > MAX_INT32
    && lease.id in t && t[lease.id].state.Running? && t[lease.id].attempt == MAX_INT32
  }

  lemma SetListIsEvolve(row: Row, outcome: Outcome, now: Time)
    ensures SetList(row, outcome, now) == Evolve(row, Ended(outcome, now))
  {
  }

  lemma MatchedRow(t: Table, id: int, attempt: int)
    requires forall k | k in t :: t[k].id == k
    ensures Matched(t, id, attempt) == if id in t && Guard(t[id], id, attempt) then {id} else {}
  {
    assert forall k | k in Matched(t, id, attempt) :: k == id;
  }

  lemma UpdateOne(t: Table, id: int, attempt: int, outcome: Outcome, now: Time)
    requires forall k | k in t :: t[k].id == k
    ensures UpdateMarked(t, id, attempt, outcome, now)
         == if id in t && Guard(t[id], id, attempt) then t[id := Evolve(t[id], Ended(outcome, now))] else t
  {
    assert forall k | k in t && Guard(t[k], id, attempt) :: k == id;
    if id in t && Guard(t[id], id, attempt) {
      SetListIsEvolve(t[id], outcome, now);
      assert UpdateMarked(t, id, attempt, outcome, now) == t[id := SetList(t[id], outcome, now)];
    }
  }

  /**
   Every guarded Mark statement with its explanation gives the same table and the same
   error as the in-memory transition, except where the clamp collides with a row at the
   top of the column or an accepted failure carries no detail.
   */
  lemma MarkAgreesIff(s: Store, lease: Lease, outcome: Outcome, now: Time)
    requires Columns(s.jobs)
    ensures SqlMark(s.jobs, lease, outcome, now)
            == Done(Mark(s, lease, outcome, now).0.jobs, Mark(s, lease, outcome, now).1)
       <==> !ClampCollides(s.jobs, lease) && !(Refusal(s, lease).None? && WritesNull(outcome))
  {
    hide Evolve, SetList;
    var arg := AttemptArg(lease.attempt);
    MatchedRow(s.jobs, lease.id, arg);
    UpdateOne(s.jobs, lease.id, arg, outcome, now);
  }

  // ------------------------------------------------------------------- fetches

  /** WHERE id IN (SELECT ... ORDER BY t, id LIMIT n): the ids with fewer than n ahead of them. */
  function Limited(key: map<int, Time>, limit: nat): set<int> {
    set id | id in key && |Ahead(key, id)| < limit
  }

  predicate DueWhere(row: Row, queue: Name, now: Time) {
    && (row.state == Available || row.state == Retryable || row.state == Scheduled)
    && row.queue == queue && row.scheduledAt <= now
  }

  predicate ExpiredWhere(row: Row, now: Time) {
    row.state == Running && row.leasedUntil.Some? && row.leasedUntil.value <= now
  }

  function SqlDue(t: Table, queue: Name, now: Time): map<int, Time> {
    map id | id in t && DueWhere(t[id], queue, now) :: t[id].scheduledAt
  }

  function SqlExpired(t: Table, now: Time): map<int, Time> {
    map id | id in t && ExpiredWhere(t[id], now) :: t[id].leasedUntil.value
  }

  /** attempt + 1 does not fit the int column of a claimed row, which fails the statement whole. */
  predicate Overflows(t: Table, ids: set<int>) {
    exists id | id in ids :: id in t && t[id].attempt + 1 > MAX_INT32
  }

  function ClaimRows(t: Table, ids: set<int>, until: Time): Table {
    map id | id in t ::
      if id in ids then t[id].(state := Running, attempt := t[id].attempt + 1, leasedUntil := Some(until)) else t[id]
  }

  /** The driver refuses any other limit before it asks the database. */
  predicate LimitFits(limit: int) {
    0 <= limit <= MAX_INT32
  }

  function SqlFetchAvailable(t: Table, queue: Name, leaseFor: Time, limit: int, now: Time): SqlResult {
    if !LimitFits(limit) then DbError
    else
      var ids := Limited(SqlDue(t, queue, now), limit);
      if Overflows(t, ids) then DbError else Done(ClaimRows(t, ids, now + leaseFor), None)
  }

  function RenewRows(t: Table, ids: set<int>, until: Time): Table {
    map id | id in t :: if id in ids then t[id].(leasedUntil := Some(until)) else t[id]
  }

  function SqlFetchExpired(t: Table, leaseFor: Time, limit: int, now: Time): SqlResult {
    if !LimitFits(limit) then DbError
    else Done(RenewRows(t, Limited(SqlExpired(t, now), limit), now + leaseFor), None)
  }

  /** Cutting on rank is taking a prefix of the listing. */
  lemma LimitIsPrefix(key: map<int, Time>, limit: nat, id: int)
    ensures id in Limited(key, limit) <==> id in Take(Sorted(key), limit)
  {
    var ids := Sorted(key);
    var taken := Take(ids, limit);
    assert Within(key, ids);
    if id in key {
      var i :| 0 <= i < |ids| && ids[i] == id;
      RankIsPosition(key, i);
      if i < |taken| {
        assert taken[i] == id;
      } else {
        assert forall j | 0 <= j < |taken| :: Precedes(key, taken[j], id);
      }
    }
  }

  lemma SameDue(s: Store, queue: Name, limit: nat, now: Time, id: int)
    ensures id in DueIds(s, queue, limit, now) <==> id in Limited(SqlDue(s.jobs, queue, now), limit)
  {
    hide Sorted, Limited;
    var key := DueKeys(s.jobs, queue, now);
    forall id ensures id in SqlDue(s.jobs, queue, now) <==> id in key {}
    assert SqlDue(s.jobs, queue, now) == key;
    LimitIsPrefix(key, limit, id);
  }

  lemma ClaimRowsAgree(s: Store, queue: Name, leaseFor: Time, limit: int, now: Time, ids: set<int>)
    requires forall id :: id in DueIds(s, queue, limit, now) <==> id in ids
    ensures ClaimRows(s.jobs, ids, now + leaseFor) == FetchAvailable(s, queue, leaseFor, limit, now).store.jobs
  {
    hide DueIds;
    var a, b := ClaimRows(s.jobs, ids, now + leaseFor), FetchAvailable(s, queue, leaseFor, limit, now).store.jobs;
    forall id | id in s.jobs ensures a[id] == b[id] {
      assert id in DueIds(s, queue, limit, now) <==> id in ids;
    }
  }

  /**
   Both drivers claim the same rows and leave the same table, exactly when the limit fits
   int32 and no claimed row is at the top of the column.
   */
  lemma FetchAvailableAgreesIff(s: Store, queue: Name, leaseFor: Time, limit: int, now: Time)
    requires Columns(s.jobs)
    ensures SqlFetchAvailable(s.jobs, queue, leaseFor, limit, now)
            == Done(FetchAvailable(s, queue, leaseFor, limit, now).store.jobs, None)
       <==> LimitFits(limit) && forall id | id in DueIds(s, queue, limit, now) :: s.jobs[id].attempt < MAX_INT32
  {
    if LimitFits(limit) {
      var ids := Limited(SqlDue(s.jobs, queue, now), limit);
      forall id ensures id in DueIds(s, queue, limit, now) <==> id in ids {
        SameDue(s, queue, limit, now, id);
      }
      ClaimRowsAgree(s, queue, leaseFor, limit, now, ids);
      hide DueIds, Limited, SqlDue, FetchAvailable, ClaimRows;
    }
  }

  lemma SameExpired(s: Store, limit: nat, now: Time, id: int)
    ensures id in ExpiredIds(s, limit, now) <==> id in Limited(SqlExpired(s.jobs, now), limit)
  {
    hide Sorted, Limited;
    var key := ExpiredKeys(s.jobs, now);
    forall id ensures id in SqlExpired(s.jobs, now) <==> id in key {}
    assert SqlExpired(s.jobs, now) == key;
    LimitIsPrefix(key, limit, id);
  }

  lemma RenewRowsAgree(s: Store, leaseFor: Time, limit: int, now: Time, ids: set<int>)
    requires forall id :: id in ExpiredIds(s, limit, now) <==> id in ids
    ensures RenewRows(s.jobs, ids, now + leaseFor) == FetchExpired(s, leaseFor, limit, now).store.jobs
  {
    hide ExpiredIds;
    var a, b := RenewRows(s.jobs, ids, now + leaseFor), FetchExpired(s, leaseFor, limit, now).store.jobs;
    forall id | id in s.jobs ensures a[id] == b[id] {
      assert id in ExpiredIds(s, limit, now) <==> id in ids;
    }
  }

  /** The sweeps agree exactly when the limit fits int32. */
  lemma FetchExpiredAgreesIff(s: Store, leaseFor: Time, limit: int, now: Time)
    ensures SqlFetchExpired(s.jobs, leaseFor, limit, now)
            == Done(FetchExpired(s, leaseFor, limit, now).store.jobs, None)
       <==> LimitFits(limit)
  {
    if LimitFits(limit) {
      var ids := Limited(SqlExpired(s.jobs, now), limit);
      forall id ensures id in ExpiredIds(s, limit, now) <==> id in ids {
        SameExpired(s, limit, now, id);
      }
      RenewRowsAgree(s, leaseFor, limit, now, ids);
      hide ExpiredIds, Limited, SqlExpired, FetchExpired, RenewRows;
    }
  }

  // ------------------------------------------------------------------ heartbeat

  function SqlExtendLeases(t: Table, leases: seq<Lease>, leaseFor: Time, now: Time): Table {
    map id | id in t ::
      if t[id].state == Running &&
         exists i | 0 <= i < |leases| :: leases[i].id == t[id].id && AttemptArg(leases[i].attempt) == t[id].attempt
      then t[id].(leasedUntil := Some(now + leaseFor)) else t[id]
  }

  /** A colliding lease shows only on a row that is not renewed anyway and whose lease it would change. */
  predicate CollisionShows(s: Store, leases: seq<Lease>, lease: Lease, until: Time) {
    && ClampCollides(s.jobs, lease) && Lease(lease.id, MAX_INT32) !in leases
    && s.jobs[lease.id].leasedUntil != Some(until)
  }

  lemma ExtendedRow(s: Store, leases: seq<Lease>, leaseFor: Time, now: Time, id: int)
    requires Columns(s.jobs) && id in s.jobs
    ensures SqlExtendLeases(s.jobs, leases, leaseFor, now)[id] == ExtendLeases(s, leases, leaseFor, now).jobs[id]
       <==> forall i | 0 <= i < |leases| && leases[i].id == id :: !CollisionShows(s, leases, leases[i], now + leaseFor)
  {
    var row := s.jobs[id];
    if row.state.Running? && Lease(id, row.attempt) !in leases {
      assert forall i | 0 <= i < |leases| && leases[i].id == id ::
        AttemptArg(leases[i].attempt) == row.attempt <==> leases[i].attempt > MAX_INT32 && row.attempt == MAX_INT32;
    }
  }

  /** The heartbeat's statement agrees exactly when no clamped lease reaches a row it does not hold. */
  lemma ExtendAgreesIff(s: Store, leases: seq<Lease>, leaseFor: Time, now: Time)
    requires Columns(s.jobs)
    ensures SqlExtendLeases(s.jobs, leases, leaseFor, now) == ExtendLeases(s, leases, leaseFor, now).jobs
       <==> forall i | 0 <= i < |leases| :: !CollisionShows(s, leases, leases[i], now + leaseFor)
  {
    hide CollisionShows, Columns;
    var a, b := SqlExtendLeases(s.jobs, leases, leaseFor, now), ExtendLeases(s, leases, leaseFor, now).jobs;
    assert a.Keys == b.Keys == s.jobs.Keys;
    forall id | id in s.jobs
      ensures a[id] == b[id] <==>
        forall i | 0 <= i < |leases| && leases[i].id == id :: !CollisionShows(s, leases, leases[i], now + leaseFor)
    {
      ExtendedRow(s, leases, leaseFor, now, id);
    }
    forall i | 0 <= i < |leases| && leases[i].id !in s.jobs
      ensures !CollisionShows(s, leases, leases[i], now + leaseFor)
    {
      MissingRow(s, leases, leases[i], now + leaseFor);
    }
    assert (forall id | id in s.jobs :: a[id] == b[id]) <==> a == b;
  }

  lemma MissingRow(s: Store, leases: seq<Lease>, lease: Lease, until: Time)
    ensures CollisionShows(s, leases, lease, until) ==> lease.id in s.jobs
  {
  }

  // --------------------------------------------------- inserts and the operator

  predicate Indexes(row: Row) {
    row.uniqueKey.Some? && row.state in {Available, Scheduled, Retryable, Running}
  }

  /** The partial unique index over non-terminal rows with a key. */
  ghost predicate IndexHolds(t: Table) {
    forall a, b | a in t && b in t && a != b && Indexes(t[a]) && Indexes(t[b]) ::
      (t[a].queue, t[a].kind, t[a].uniqueKey) != (t[b].queue, t[b].kind, t[b].uniqueKey)
  }

  /** A write that would break the index is refused by the database. */
  ghost function Indexed(t: Table, after: Table): Option<Table> {
    if IndexHolds(after) then Some(after) else None
  }

  function InsertedRow(id: int, p: InsertParams, now: Time): Row {
    var at := match p.scheduledAt case None => now case Some(t) => t;
    Row(id, p.kind, p.queue, p.args, if at > now then Scheduled else Available,
        0, 25, [], at, None, now, None, p.uniqueKey)
  }

  /** With the index in force, an insert is refused exactly when the in-memory one is. */
  lemma InsertAgrees(s: Store, p: InsertParams, now: Time)
    requires WellFormed(s) && IndexHolds(s.jobs)
    ensures Indexed(s.jobs, s.jobs[s.nextID + 1 := InsertedRow(s.nextID + 1, p, now)])
         == if Insert(s, p, now).1.Ok? then Some(Insert(s, p, now).0.jobs) else None
  {
    var after := s.jobs[s.nextID + 1 := InsertedRow(s.nextID + 1, p, now)];
    if Conflict(s.jobs, p) {
      var id :| id in s.jobs && s.jobs[id].state.UniqueActive() && InSlot(s.jobs[id], p.queue, p.kind, p.uniqueKey);
      assert id in after && after[id] == s.jobs[id] && (s.nextID + 1) in after;
    }
  }

  function UpdateRedriven(t: Table, id: int, now: Time): Table {
    map k | k in t ::
      if k == id && t[k].state == Dead
      then t[k].(state := Available, attempt := 0, leasedUntil := None, finalizedAt := None, scheduledAt := now)
      else t[k]
  }

  /** The in-memory redrive does what the database would refuse exactly when the slot is taken. */
  lemma RedriveAgreesIff(s: Store, id: int, now: Time)
    requires WellFormed(s) && IndexHolds(s.jobs) && id in s.jobs && s.jobs[id].state.Dead?
    ensures UpdateRedriven(s.jobs, id, now) == RedriveDead(s, id, now).0.jobs
    ensures var row := s.jobs[id];
      Indexed(s.jobs, UpdateRedriven(s.jobs, id, now)).None?
      <==> Conflict(s.jobs, InsertParams(row.kind, row.queue, row.args, None, row.uniqueKey))
  {
    var row := s.jobs[id];
    var after := UpdateRedriven(s.jobs, id, now);
    if Conflict(s.jobs, InsertParams(row.kind, row.queue, row.args, None, row.uniqueKey)) {
      var k :| k in s.jobs && s.jobs[k].state.UniqueActive() && InSlot(s.jobs[k], row.queue, row.kind, row.uniqueKey);
      assert k in after && after[k] == s.jobs[k] && id in after;
    }
  }

  function UpdateCancelled(t: Table, id: int, now: Time): Table {
    map k | k in t ::
      if k == id && t[k].state in {Available, Scheduled, Retryable, Dead}
      then t[k].(state := Cancelled, finalizedAt := Some(now), leasedUntil := None) else t[k]
  }

  lemma CancelAgrees(s: Store, id: int, now: Time)
    ensures UpdateCancelled(s.jobs, id, now) == OperatorCancel(s, id, now).0.jobs
  {
  }

  // ------------------------------------------------------------------ in place

  /** The table, changed by one statement at a time. */
  class JobTable {
    var rows: Table

    /** A guarded UPDATE, row by row, and its affected-row count; a NULL it would write fails it whole. */
    method ExecMark(id: int, attempt: int, outcome: Outcome, now: Time) returns (affected: nat, failed: bool)
      modifies this
      ensures affected == |Matched(old(rows), id, attempt)|
      ensures Keyed(old(rows)) ==> affected == if id in old(rows) && Guard(old(rows[id]), id, attempt) then 1 else 0
      ensures failed <==> affected > 0 && WritesNull(outcome)
      ensures rows == if failed then old(rows) else UpdateMarked(old(rows), id, attempt, outcome, now)
    {
      var after, todo := rows, rows.Keys;
      affected := 0;
      ghost var seen: set<int> := {};
      while todo != {}
        invariant todo <= rows.Keys && rows == old(rows) && seen == MatchedIn(rows, rows.Keys - todo, id, attempt)
        invariant affected == |seen|
        invariant after == MarkedIn(rows, rows.Keys - todo, id, attempt, outcome, now)
      {
        SomeElement(todo);
        var k :| k in todo;
        MarkOneMore(rows, todo, k, id, attempt, outcome, now);
        if Guard(rows[k], id, attempt) {
          affected := affected + 1;
          seen := seen + {k};
          after := after[k := SetList(rows[k], outcome, now)];
        }
        todo := todo - {k};
      }
      AllMarked(rows, id, attempt, outcome, now);
      if Keyed(rows) {
        MatchedRow(rows, id, attempt);
      }
      failed := affected > 0 && WritesNull(outcome);
      if !failed {
        rows := after;
      }
    }

    /** A Mark method: the statement, then an explanation when it matched nothing. */
    method Mark(lease: Lease, outcome: Outcome, now: Time) returns (verdict: Option<Error>, failed: bool)
      modifies this
      ensures SqlMark(old(rows), lease, outcome, now) == if failed then DbError else Done(rows, verdict)
      ensures failed ==> rows == old(rows)
    {
      var affected: nat;
      affected, failed := ExecMark(lease.id, AttemptArg(lease.attempt), outcome, now);
      verdict := if !failed && affected == 0 then Some(Explain(rows, lease)) else None;
    }

    /** A claim; the rows come back in id order, because UPDATE ... RETURNING has none. */
    method FetchAvailable(queue: Name, leaseFor: Time, limit: int, now: Time) returns (claimed: seq<Row>, failed: bool)
      requires Keyed(rows)
      modifies this
      ensures SqlFetchAvailable(old(rows), queue, leaseFor, limit, now) == if failed then DbError else Done(rows, None)
      ensures failed ==> rows == old(rows) && claimed == []
      ensures !failed ==> LimitFits(limit) && InIdOrder(claimed, rows, Limited(SqlDue(old(rows), queue, now), limit))
    {
      if limit < 0 || limit > MAX_INT32 {
        return [], true;
      }
      var ids := Limited(SqlDue(rows, queue, now), limit);
      failed := Overflows(rows, ids);
      if failed {
        return [], true;
      }
      rows := ClaimRows(rows, ids, now + leaseFor);
      claimed := SortedRows(rows, ids);
    }

    /** A sweep, in the same way. */
    method FetchExpired(leaseFor: Time, limit: int, now: Time) returns (reclaimed: seq<Row>, failed: bool)
      requires Keyed(rows)
      modifies this
      ensures SqlFetchExpired(old(rows), leaseFor, limit, now) == if failed then DbError else Done(rows, None)
      ensures failed ==> rows == old(rows) && reclaimed == []
      ensures !failed ==> LimitFits(limit) && InIdOrder(reclaimed, rows, Limited(SqlExpired(old(rows), now), limit))
    {
      if limit < 0 || limit > MAX_INT32 {
        return [], true;
      }
      var ids := Limited(SqlExpired(rows, now), limit);
      rows := RenewRows(rows, ids, now + leaseFor);
      reclaimed := SortedRows(rows, ids);
      failed := false;
    }

    static method SortedRows(t: Table, ids: set<int>) returns (r: seq<Row>)
      requires ids <= t.Keys && Keyed(t)
      ensures InIdOrder(r, t, ids)
    {
      var key := map id | id in ids :: 0;
      assert key.Keys == ids;
      var order := SortIds(key);
      r := [];
      for i := 0 to |order|
        invariant |r| == i && forall k | 0 <= k < i :: order[k] in t && r[k] == t[order[k]]
      {
        assert order[i] in key;
        r := r + [t[order[i]]];
      }
      IdOrder(key, order, t, ids, r);
    }
  }

  function MatchedIn(t: Table, ids: set<int>, id: int, attempt: int): set<int> {
    set k | k in ids && k in t && Guard(t[k], id, attempt)
  }

  function MarkedIn(t: Table, ids: set<int>, id: int, attempt: int, outcome: Outcome, now: Time): Table {
    map k | k in t :: if k in ids && Guard(t[k], id, attempt) then SetList(t[k], outcome, now) else t[k]
  }

  lemma MarkOneMore(t: Table, todo: set<int>, k: int, id: int, attempt: int, outcome: Outcome, now: Time)
    requires k in todo && k in t && todo <= t.Keys
    ensures k !in MatchedIn(t, t.Keys - todo, id, attempt)
    ensures var more := t.Keys - (todo - {k});
      && MatchedIn(t, more, id, attempt)
         == MatchedIn(t, t.Keys - todo, id, attempt) + (if Guard(t[k], id, attempt) then {k} else {})
      && MarkedIn(t, more, id, attempt, outcome, now)
         == var before := MarkedIn(t, t.Keys - todo, id, attempt, outcome, now);
            if Guard(t[k], id, attempt) then before[k := SetList(t[k], outcome, now)] else before
  {
    hide SetList;
    forall j ensures j in t.Keys - (todo - {k}) <==> j in t.Keys - todo || j == k {}
  }

  lemma AllMarked(t: Table, id: int, attempt: int, outcome: Outcome, now: Time)
    ensures MatchedIn(t, t.Keys - {}, id, attempt) == Matched(t, id, attempt)
    ensures MarkedIn(t, t.Keys - {}, id, attempt, outcome, now) == UpdateMarked(t, id, attempt, outcome, now)
  {
    hide SetList;
  }

  /** Every row sits under its own id. */
  ghost predicate Keyed(t: Table) {
    forall id | id in t :: t[id].id == id
  }

  /** r lists the rows of ids, each once, ids ascending. */
  ghost predicate InIdOrder(r: seq<Row>, t: Table, ids: set<int>) {
    && |r| == |ids|
    && (forall i | 0 <= i < |r| :: r[i].id in ids && r[i].id in t && t[r[i].id] == r[i])
    && (forall i, j | 0 <= i < j < |r| :: r[i].id < r[j].id)
  }

  lemma IdOrder(key: map<int, int>, order: seq<int>, t: Table, ids: set<int>, r: seq<Row>)
    requires key.Keys == ids && order == Sorted(key) && Keyed(t) && forall id | id in key :: key[id] == 0
    requires |r| == |order| && forall k | 0 <= k < |order| :: order[k] in t && r[k] == t[order[k]]
    ensures InIdOrder(r, t, ids)
  {
  }
}
