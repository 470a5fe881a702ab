/**
 The steps of the in-memory job store, each as a function of the whole store
 and the clock. MemDriver runs them in place; runs of the system are sequences
 of them.
 */
module JobStore {
  import opened Jobs
  import opened Ordering

  const MAX_ATTEMPTS := 25

  type Table = map<int, Row>

  datatype Store = Store(nextID: int, jobs: Table)

  const EMPTY := Store(0, map[])

  /** Every row sits under its own id, and ids not yet issued are free. */
  ghost predicate WellFormed(s: Store) {
    && s.nextID >= 0
    && forall id | id in s.jobs :: s.jobs[id].id == id && 1 <= id <= s.nextID
  }

  // ---------------------------------------------------------------- one row

  /** What one store operation does to one row. */
  datatype Event =
    | Untouched
    | Claimed(until: Time)
    | Renewed(until: Time)
    | Ended(outcome: Outcome, now: Time)
    | Withdrawn(now: Time)
    | Redriven(now: Time)

  /** The states each event may find a row in. */
  predicate Allowed(row: Row, e: Event) {
    match e
    case Untouched => true
    case Claimed(_) => row.state.Waiting()
    case Renewed(_) => row.state.Running?
    case Ended(_, _) => row.state.Running?
    case Withdrawn(_) => row.state.Cancellable()
    case Redriven(_) => row.state.Dead?
  }

  function Evolve(row: Row, e: Event): Row {
    match e
    case Untouched => row
    case Claimed(until) => row.(state := Running, attempt := row.attempt + 1, leasedUntil := Some(until))
    case Renewed(until) => row.(leasedUntil := Some(until))
    case Ended(outcome, now) => Finish(row, outcome, now).(leasedUntil := None)
    case Withdrawn(now) => row.(state := Cancelled, finalizedAt := Some(now), leasedUntil := None)
    case Redriven(now) =>
      row.(state := Available, attempt := 0, leasedUntil := None, finalizedAt := None, scheduledAt := now)
  }

  /** The row a Mark method writes, before its lease is cleared. */
  function Finish(row: Row, outcome: Outcome, now: Time): Row {
    row.(state := StateAfter(outcome),
         errors := Appended(row.errors, DetailOf(outcome)),
         finalizedAt := if StateAfter(outcome).Terminal() then Some(now) else row.finalizedAt,
         scheduledAt := if outcome.Retry? || outcome.Snooze? then outcome.at else row.scheduledAt,
         attempt := if outcome.Snooze? then Max(row.attempt - 1, 0) else row.attempt)
  }

  function StateAfter(outcome: Outcome): State {
    match outcome
    case Complete => Completed
    case Die(_) => Dead
    case Cancel(_) => Cancelled
    case Retry(_, _) => Retryable
    case Snooze(_) => Scheduled
  }

  function DetailOf(outcome: Outcome): Option<Detail> {
    match outcome
    case Complete => None
    case Snooze(_) => None
    case Die(d) => d
    case Cancel(d) => d
    case Retry(_, d) => d
  }

  function Max(a: int, b: int): int {
    if a > b then a else b
  }

  function Appended(errors: seq<Detail>, d: Option<Detail>): seq<Detail> {
    if d.Some? then errors + [d.value] else errors
  }

  // ----------------------------------------------------------------- insert

  function NewRow(id: int, p: InsertParams, now: Time): Row {
    var at := if p.scheduledAt.Some? then p.scheduledAt.value else now;
    Row(id, p.kind, p.queue, p.args, if at > now then Scheduled else Available,
        0, MAX_ATTEMPTS, [], at, None, now, None, p.uniqueKey)
  }

  predicate InSlot(row: Row, queue: Name, kind: Name, key: Option<Name>) {
    row.uniqueKey == key && row.queue == queue && row.kind == kind
  }

  predicate Conflict(jobs: Table, p: InsertParams) {
    p.uniqueKey.Some? &&
    exists id | id in jobs ::
      jobs[id].state.UniqueActive() && InSlot(jobs[id], p.queue, p.kind, p.uniqueKey)
  }

  /** The row is in that slot and neither completed, cancelled nor dead. */
  ghost predicate LiveIn(row: Row, queue: Name, kind: Name, key: Option<Name>) {
    && row.queue == queue && row.kind == kind && row.uniqueKey == key
    && row.state !in {Completed, Cancelled, Dead}
  }

  ghost predicate Occupied(jobs: Table, queue: Name, kind: Name, key: Option<Name>) {
    exists id :: id in jobs && LiveIn(jobs[id], queue, kind, key)
  }

  /** A key is taken exactly while a job under it is still to finish; the empty key never is. */
  lemma ConflictIsOccupied(jobs: Table, p: InsertParams)
    ensures Conflict(jobs, p) <==> p.uniqueKey.Some? && Occupied(jobs, p.queue, p.kind, p.uniqueKey)
  {
    if Conflict(jobs, p) {
      var id :| id in jobs && jobs[id].state.UniqueActive() && InSlot(jobs[id], p.queue, p.kind, p.uniqueKey);
      assert LiveIn(jobs[id], p.queue, p.kind, p.uniqueKey);
    }
    if p.uniqueKey.Some? && Occupied(jobs, p.queue, p.kind, p.uniqueKey) {
      var id :| id in jobs && LiveIn(jobs[id], p.queue, p.kind, p.uniqueKey);
      assert jobs[id].state.UniqueActive() && InSlot(jobs[id], p.queue, p.kind, p.uniqueKey);
    }
  }

  function Insert(s: Store, p: InsertParams, now: Time): (Store, Result<Row>) {
    if Conflict(s.jobs, p) then (s, Err(DuplicateJob))
    else
      var row := NewRow(s.nextID + 1, p, now);
      (Store(s.nextID + 1, s.jobs[s.nextID + 1 := row]), Ok(row))
  }

  /** Inserting a batch one item after another, stopping at the first refusal. */
  function InsertEach(s: Store, batch: seq<InsertParams>, now: Time): (Store, Result<seq<Row>>)
    decreases |batch|
  {
    if batch == [] then (s, Ok([]))
    else
      var (before, rows) := InsertEach(s, batch[..|batch| - 1], now);
      if rows.Err? then (before, rows)
      else
        var (after, row) := Insert(before, batch[|batch| - 1], now);
        if row.Err? then (before, Err(row.error)) else (after, Ok(rows.value + [row.value]))
  }

  /** The batch is accepted whole or refused whole. */
  function InsertMany(s: Store, batch: seq<InsertParams>, now: Time): (Store, Result<seq<Row>>) {
    var (after, rows) := InsertEach(s, batch, now);
    if rows.Ok? then (after, rows) else (s, rows)
  }

  // ---------------------------------------------------------------- fetches

  predicate IsDue(row: Row, queue: Name, now: Time) {
    row.state.Waiting() && row.queue == queue && row.scheduledAt <= now
  }

  predicate IsExpired(row: Row, now: Time) {
    row.state.Running? && row.leasedUntil.Some? && row.leasedUntil.value <= now
  }

  function DueKeys(jobs: Table, queue: Name, now: Time): map<int, Time> {
    map id | id in jobs && IsDue(jobs[id], queue, now) :: jobs[id].scheduledAt
  }

  function ExpiredKeys(jobs: Table, now: Time): map<int, Time> {
    map id | id in jobs && IsExpired(jobs[id], now) :: jobs[id].leasedUntil.value
  }

  /** The rows a limited fetch stops at; a negative limit never stops it. */
  function Take(ids: seq<int>, limit: int): seq<int> {
    if 0 <= limit < |ids| then ids[..limit] else ids
  }

  /** Every listed row undergoes e; the others stay. */
  ghost function EvolveAll(jobs: Table, ids: seq<int>, e: Event): (after: Table) {
    map id | id in jobs :: if id in ids then Evolve(jobs[id], e) else jobs[id]
  }

  ghost function RowsOf(jobs: Table, ids: seq<int>): (rows: seq<Row>)
    requires forall i | 0 <= i < |ids| :: ids[i] in jobs
  {
    seq(|ids|, i requires 0 <= i < |ids| => jobs[ids[i]])
  }

  /** The rows a fetch hands out are the stored ones. */
  lemma RowsAreStored(jobs: Table, ids: seq<int>, r: Row)
    requires forall i | 0 <= i < |ids| :: ids[i] in jobs && jobs[ids[i]].id == ids[i]
    ensures r in RowsOf(jobs, ids) <==> r.id in ids && jobs[r.id] == r
  {
    if r.id in ids && jobs[r.id] == r {
      var i :| 0 <= i < |ids| && ids[i] == r.id;
      assert RowsOf(jobs, ids)[i] == r;
    }
  }

  datatype Fetched = Fetched(store: Store, rows: seq<Row>)

  ghost function DueIds(s: Store, queue: Name, limit: int, now: Time): (ids: seq<int>)
    ensures forall i | 0 <= i < |ids| :: ids[i] in s.jobs && IsDue(s.jobs[ids[i]], queue, now)
    ensures limit >= 0 ==> |ids| <= limit
  {
    var ids := Take(Sorted(DueKeys(s.jobs, queue, now)), limit);
    assert Within(DueKeys(s.jobs, queue, now), Sorted(DueKeys(s.jobs, queue, now)));
    ids
  }

  ghost function ExpiredIds(s: Store, limit: int, now: Time): (ids: seq<int>)
    ensures forall i | 0 <= i < |ids| :: ids[i] in s.jobs && IsExpired(s.jobs[ids[i]], now)
  {
    var ids := Take(Sorted(ExpiredKeys(s.jobs, now)), limit);
    assert Within(ExpiredKeys(s.jobs, now), Sorted(ExpiredKeys(s.jobs, now)));
    ids
  }

  ghost function FetchAvailable(s: Store, queue: Name, leaseFor: Time, limit: int, now: Time): Fetched {
    var ids := DueIds(s, queue, limit, now);
    var jobs := EvolveAll(s.jobs, ids, Claimed(now + leaseFor));
    Fetched(s.(jobs := jobs), RowsOf(jobs, ids))
  }

  ghost function FetchExpired(s: Store, leaseFor: Time, limit: int, now: Time): Fetched {
    var ids := ExpiredIds(s, limit, now);
    var jobs := EvolveAll(s.jobs, ids, Renewed(now + leaseFor));
    Fetched(s.(jobs := jobs), RowsOf(jobs, ids))
  }

  /** Each claimed row comes back as its claim left it, in due order. */
  lemma ClaimedRow(s: Store, queue: Name, leaseFor: Time, limit: int, now: Time)
    ensures var ids := DueIds(s, queue, limit, now);
      var rows := FetchAvailable(s, queue, leaseFor, limit, now).rows;
      && |rows| == |ids|
      && forall i | 0 <= i < |ids| :: rows[i] == Evolve(s.jobs[ids[i]], Claimed(now + leaseFor))
  {
  }

  ghost function ExtendLeases(s: Store, leases: seq<Lease>, leaseFor: Time, now: Time): Store {
    s.(jobs := map id | id in s.jobs ::
      if s.jobs[id].state.Running? && Lease(id, s.jobs[id].attempt) in leases
      then Evolve(s.jobs[id], Renewed(now + leaseFor)) else s.jobs[id])
  }

  // ------------------------------------------------------- guarded changes

  /** The guard behind every Mark method. */
  function Refusal(s: Store, lease: Lease): Option<Error> {
    if lease.id !in s.jobs then Some(NotFound)
    else if !s.jobs[lease.id].state.Running? then Some(InvalidTransition)
    else if s.jobs[lease.id].attempt != lease.attempt then Some(LeaseLost)
    else None
  }

  function Mark(s: Store, lease: Lease, outcome: Outcome, now: Time): (Store, Option<Error>) {
    if Refusal(s, lease).Some? then (s, Refusal(s, lease))
    else (s.(jobs := s.jobs[lease.id := Evolve(s.jobs[lease.id], Ended(outcome, now))]), None)
  }

  function OperatorCancel(s: Store, id: int, now: Time): (Store, Result<Row>) {
    if id !in s.jobs then (s, Err(NotFound))
    else if !s.jobs[id].state.Cancellable() then (s, Err(InvalidTransition))
    else
      var row := Evolve(s.jobs[id], Withdrawn(now));
      (s.(jobs := s.jobs[id := row]), Ok(row))
  }

  function RedriveDead(s: Store, id: int, now: Time): (Store, Result<Row>) {
    if id !in s.jobs then (s, Err(NotFound))
    else if !s.jobs[id].state.Dead? then (s, Err(InvalidTransition))
    else
      var row := Evolve(s.jobs[id], Redriven(now));
      (s.(jobs := s.jobs[id := row]), Ok(row))
  }

  // ------------------------------------------------------------------- runs

  /** One call on the store. Requeue is the shutdown's MarkRetryable. */
  datatype Op =
    | InsertOp(p: InsertParams)
    | InsertManyOp(batch: seq<InsertParams>)
    | FetchAvailableOp(queue: Name, leaseFor: Time, limit: int)
    | FetchExpiredOp(leaseFor: Time, limit: int)
    | ExtendLeasesOp(leases: seq<Lease>, leaseFor: Time)
    | MarkOp(lease: Lease, outcome: Outcome)
    | RequeueOp(lease: Lease, at: Time, detail: Detail)
    | CancelOp(id: int)
    | RedriveOp(id: int)

  ghost function Apply(s: Store, op: Op, now: Time): Store {
    match op
    case InsertOp(p) => Insert(s, p, now).0
    case InsertManyOp(batch) => InsertMany(s, batch, now).0
    case FetchAvailableOp(queue, leaseFor, limit) => FetchAvailable(s, queue, leaseFor, limit, now).store
    case FetchExpiredOp(leaseFor, limit) => FetchExpired(s, leaseFor, limit, now).store
    case ExtendLeasesOp(leases, leaseFor) => ExtendLeases(s, leases, leaseFor, now)
    case MarkOp(lease, outcome) => Mark(s, lease, outcome, now).0
    case RequeueOp(lease, at, detail) => Mark(s, lease, Retry(at, Some(detail)), now).0
    case CancelOp(id) => OperatorCancel(s, id, now).0
    case RedriveOp(id) => RedriveDead(s, id, now).0
  }

  /** The event a call is for one row. */
  ghost function EventFor(s: Store, op: Op, now: Time, id: int): Event
    requires id in s.jobs
  {
    match op
    case InsertOp(_) => Untouched
    case InsertManyOp(_) => Untouched
    case FetchAvailableOp(queue, leaseFor, limit) =>
      if id in DueIds(s, queue, limit, now) then Claimed(now + leaseFor) else Untouched
    case FetchExpiredOp(leaseFor, limit) =>
      if id in ExpiredIds(s, limit, now) then Renewed(now + leaseFor) else Untouched
    case ExtendLeasesOp(leases, leaseFor) =>
      if s.jobs[id].state.Running? && Lease(id, s.jobs[id].attempt) in leases
      then Renewed(now + leaseFor) else Untouched
    case MarkOp(lease, outcome) =>
      if lease.id == id && Refusal(s, lease).None? then Ended(outcome, now) else Untouched
    case RequeueOp(lease, at, detail) =>
      if lease.id == id && Refusal(s, lease).None? then Ended(Retry(at, Some(detail)), now) else Untouched
    case CancelOp(k) =>
      if k == id && s.jobs[id].state.Cancellable() then Withdrawn(now) else Untouched
    case RedriveOp(k) =>
      if k == id && s.jobs[id].state.Dead? then Redriven(now) else Untouched
  }

  /** A row as an insert stores it. */
  ghost predicate Fresh(row: Row) {
    && (row.state.Available? || row.state.Scheduled?)
    && row.attempt == 0
    && row.maxAttempts == MAX_ATTEMPTS
    && row.errors == []
    && row.leasedUntil.None?
    && row.finalizedAt.None?
  }

  /** What one call may do to a store: one allowed event a row, and fresh rows under unissued ids. */
  ghost predicate Rowwise(s: Store, op: Op, now: Time, t: Store) {
    && WellFormed(t)
    && s.nextID <= t.nextID
    && (forall id | id in s.jobs ::
          && Allowed(s.jobs[id], EventFor(s, op, now, id))
          && id in t.jobs && t.jobs[id] == Evolve(s.jobs[id], EventFor(s, op, now, id)))
    && (forall id | id in t.jobs && id !in s.jobs :: Fresh(t.jobs[id]) && id > s.nextID)
  }

  /** Rows are only added, under ids never issued before. */
  ghost predicate Extends(s: Store, t: Store) {
    && WellFormed(t)
    && s.nextID <= t.nextID
    && (forall id | id in s.jobs :: id in t.jobs && t.jobs[id] == s.jobs[id])
    && (forall id | id in t.jobs && id !in s.jobs :: Fresh(t.jobs[id]) && id > s.nextID)
  }

  lemma {:induction false} InsertEachExtends(s: Store, batch: seq<InsertParams>, now: Time)
    requires WellFormed(s)
    ensures Extends(s, InsertEach(s, batch, now).0)
    decreases |batch|
  {
    if batch != [] {
      InsertEachExtends(s, batch[..|batch| - 1], now);
    }
  }

  lemma InsertIsRowwise(s: Store, op: Op, now: Time)
    requires WellFormed(s)
    requires op.InsertOp? || op.InsertManyOp?
    ensures Rowwise(s, op, now, Apply(s, op, now))
  {
    if op.InsertManyOp? {
      InsertEachExtends(s, op.batch, now);
    }
    assert Extends(s, Apply(s, op, now));
  }

  lemma FetchAvailableIsRowwise(s: Store, op: Op, now: Time)
    requires WellFormed(s) && op.FetchAvailableOp?
    ensures Rowwise(s, op, now, Apply(s, op, now))
  {
    hide DueIds;
    var ids := DueIds(s, op.queue, op.limit, now);
    assert forall id | id in ids :: id in s.jobs && s.jobs[id].state.Waiting();
  }

  lemma FetchExpiredIsRowwise(s: Store, op: Op, now: Time)
    requires WellFormed(s) && op.FetchExpiredOp?
    ensures Rowwise(s, op, now, Apply(s, op, now))
  {
  }

  lemma ExtendIsRowwise(s: Store, op: Op, now: Time)
    requires WellFormed(s) && op.ExtendLeasesOp?
    ensures Rowwise(s, op, now, Apply(s, op, now))
  {
  }

  lemma ChangeIsRowwise(s: Store, op: Op, now: Time)
    requires WellFormed(s)
    requires op.MarkOp? || op.RequeueOp? || op.CancelOp? || op.RedriveOp?
    ensures Rowwise(s, op, now, Apply(s, op, now))
  {
  }

  /** Every call acts row by row through one allowed event. */
  lemma ApplyIsRowwise(s: Store, op: Op, now: Time)
    requires WellFormed(s)
    ensures Rowwise(s, op, now, Apply(s, op, now))
  {
    if op.InsertOp? || op.InsertManyOp? {
      InsertIsRowwise(s, op, now);
    } else if op.FetchAvailableOp? {
      FetchAvailableIsRowwise(s, op, now);
    } else if op.FetchExpiredOp? {
      FetchExpiredIsRowwise(s, op, now);
    } else if op.ExtendLeasesOp? {
      ExtendIsRowwise(s, op, now);
    } else {
      ChangeIsRowwise(s, op, now);
    }
  }
}
