/**
 Whole runs on the database: as long as no statement meets one of the exact exceptions, the
 table and the in-memory store stay the same row for row.
 */
module SqlRuns {
  import opened Jobs
  import opened Ordering
  import opened JobStore
  import opened Journal
  import opened UniqueSlots
  import opened SqlDriver

  /** burned is how many ids the database uses up if this call is refused an insert. */
  datatype SqlCall = SqlCall(op: Op, now: Time, burned: nat)

  /** The rows a staged batch inserts, in the order they were loaded. */
  ghost function Staged(nextID: int, batch: seq<InsertParams>, now: Time): Table {
    if batch == [] then map[]
    else
      var n := |batch| - 1;
      Staged(nextID, batch[..n], now)[nextID + |batch| := InsertedRow(nextID + |batch|, batch[n], now)]
  }

  /** One call on the database, or None when it errs. */
  ghost function SqlStep(s: Store, c: SqlCall): Option<Store> {
    match c.op
    case InsertOp(p) =>
      Some(Inserted(s, s.jobs[s.nextID + 1 := InsertedRow(s.nextID + 1, p, c.now)], 1, c.burned))
    case InsertManyOp(batch) =>
      Some(Inserted(s, s.jobs + Staged(s.nextID, batch, c.now), |batch|, c.burned))
    case FetchAvailableOp(queue, leaseFor, limit) =>
      TableOf(s, SqlFetchAvailable(s.jobs, queue, leaseFor, limit, c.now))
    case FetchExpiredOp(leaseFor, limit) => TableOf(s, SqlFetchExpired(s.jobs, leaseFor, limit, c.now))
    case ExtendLeasesOp(leases, leaseFor) => Some(s.(jobs := SqlExtendLeases(s.jobs, leases, leaseFor, c.now)))
    case MarkOp(lease, outcome) => TableOf(s, SqlMark(s.jobs, lease, outcome, c.now))
    case RequeueOp(lease, at, detail) => TableOf(s, SqlMark(s.jobs, lease, Retry(at, Some(detail)), c.now))
    case CancelOp(id) => Some(s.(jobs := UpdateCancelled(s.jobs, id, c.now)))
    case RedriveOp(id) =>
      var after := UpdateRedriven(s.jobs, id, c.now);
      if IndexHolds(after) then Some(s.(jobs := after)) else None
  }

  /** An insert the index admits, or a refusal that still uses up ids. */
  ghost function Inserted(s: Store, after: Table, n: nat, burned: nat): Store {
    if IndexHolds(after) then Store(s.nextID + n, after) else Store(s.nextID + burned, s.jobs)
  }

  function TableOf(s: Store, r: SqlResult): Option<Store> {
    match r
    case Done(table, _) => Some(s.(jobs := table))
    case DbError => None
  }

  /** The in-memory store finds the key taken. */
  ghost predicate Refused(s: Store, op: Op) {
    match op
    case InsertOp(p) => Conflict(s.jobs, p)
    case InsertManyOp(batch) => !Clean(s.jobs, batch)
    case _ => false
  }

  /** The in-memory step, except that a refused insert skips the ids the database used up. */
  ghost function SkipStep(s: Store, c: SqlCall): Store {
    if Refused(s, c.op) then Store(s.nextID + c.burned, s.jobs) else Apply(s, c.op, c.now)
  }

  /** The call meets none of the exceptions. */
  ghost predicate Plain(s: Store, op: Op, now: Time) {
    match op
    case InsertOp(_) => true
    case InsertManyOp(_) => true
    case FetchAvailableOp(queue, _, limit) =>
      LimitFits(limit) && forall id | id in DueIds(s, queue, limit, now) :: s.jobs[id].attempt < MAX_INT32
    case FetchExpiredOp(_, limit) => LimitFits(limit)
    case ExtendLeasesOp(leases, leaseFor) =>
      forall i | 0 <= i < |leases| :: !CollisionShows(s, leases, leases[i], now + leaseFor)
    case MarkOp(lease, outcome) => PlainMark(s, lease, outcome)
    case RequeueOp(lease, at, detail) => PlainMark(s, lease, Retry(at, Some(detail)))
    case CancelOp(_) => true
    case RedriveOp(id) => id in s.jobs && s.jobs[id].state.Dead? ==> !Conflict(s.jobs, SlotOf(s.jobs[id]))
  }

  ghost predicate PlainMark(s: Store, lease: Lease, outcome: Outcome) {
    !ClampCollides(s.jobs, lease) && !(Refusal(s, lease).None? && WritesNull(outcome))
  }

  /** The index is what keeps slots unique. */
  lemma IndexIsSlots(t: Table)
    ensures IndexHolds(t) <==> SlotsUnique(t)
  {
    if SlotsUnique(t) {
      forall a, b | a in t && b in t && a != b && Indexes(t[a]) && Indexes(t[b])
        ensures (t[a].queue, t[a].kind, t[a].uniqueKey) != (t[b].queue, t[b].kind, t[b].uniqueKey)
      {
        assert !SameSlot(t[a], t[b]);
      }
    }
  }

  lemma InsertStepAgrees(s: Store, c: SqlCall)
    requires WellFormed(s) && SlotsUnique(s.jobs) && c.op.InsertOp?
    ensures SqlStep(s, c) == Some(SkipStep(s, c))
  {
    hide IndexHolds, SlotsUnique, Conflict, InsertedRow, NewRow;
    IndexIsSlots(s.jobs);
    InsertAgrees(s, c.op.p, c.now);
  }

  lemma {:induction false} StagedIsAdded(nextID: int, batch: seq<InsertParams>, now: Time)
    ensures Staged(nextID, batch, now) == Added(nextID, batch, now)
    decreases |batch|
  {
    if batch != [] {
      StagedIsAdded(nextID, batch[..|batch| - 1], now);
    }
  }

  lemma AddedAt(s: Store, batch: seq<InsertParams>, now: Time, i: nat)
    requires WellFormed(s) && i < |batch|
    ensures var id := s.nextID + 1 + i;
      var after := s.jobs + Added(s.nextID, batch, now);
      id !in s.jobs && id in after && after[id] == NewRow(id, batch[i], now)
  {
    hide NewRow;
  }

  lemma StoredClash(s: Store, batch: seq<InsertParams>, now: Time, i: nat)
    requires WellFormed(s) && i < |batch| && Conflict(s.jobs, batch[i])
    ensures !SlotsUnique(s.jobs + Added(s.nextID, batch, now))
  {
    var p := batch[i];
    var after := s.jobs + Added(s.nextID, batch, now);
    var k :| k in s.jobs && s.jobs[k].state.UniqueActive() && InSlot(s.jobs[k], p.queue, p.kind, p.uniqueKey);
    AddedAt(s, batch, now, i);
    assert k in after && after[k] == s.jobs[k] by { assert k !in Added(s.nextID, batch, now); }
    hide Added;
    assert SameSlot(after[k], after[s.nextID + 1 + i]);
  }

  lemma BatchClash(s: Store, batch: seq<InsertParams>, now: Time, i: nat, j: nat)
    requires WellFormed(s) && i < j < |batch| && ParamsClash(batch[i], batch[j])
    ensures !SlotsUnique(s.jobs + Added(s.nextID, batch, now))
  {
    hide Added;
    AddedAt(s, batch, now, i);
    AddedAt(s, batch, now, j);
    var after := s.jobs + Added(s.nextID, batch, now);
    assert SameSlot(after[s.nextID + 1 + i], after[s.nextID + 1 + j]);
  }

  /** A batch is admitted by the index exactly when it is free of clashes. */
  lemma BatchIndex(s: Store, batch: seq<InsertParams>, now: Time)
    requires WellFormed(s) && SlotsUnique(s.jobs)
    ensures SlotsUnique(s.jobs + Added(s.nextID, batch, now)) <==> Clean(s.jobs, batch)
  {
    hide SlotsUnique, Added, Conflict, ParamsClash;
    if Clean(s.jobs, batch) {
      InsertEachExact(s, batch, now);
      InsertEachKeepsSlots(s, batch, now);
    } else if i :| 0 <= i < |batch| && Conflict(s.jobs, batch[i]) {
      StoredClash(s, batch, now, i);
    } else {
      var i, j :| 0 <= i < j < |batch| && ParamsClash(batch[i], batch[j]);
      BatchClash(s, batch, now, i, j);
    }
  }

  lemma BatchStepAgrees(s: Store, c: SqlCall)
    requires WellFormed(s) && SlotsUnique(s.jobs) && c.op.InsertManyOp?
    ensures SqlStep(s, c) == Some(SkipStep(s, c))
  {
    hide IndexHolds, SlotsUnique, Clean, Staged, Added;
    var batch := c.op.batch;
    StagedIsAdded(s.nextID, batch, c.now);
    BatchIndex(s, batch, c.now);
    IndexIsSlots(s.jobs + Added(s.nextID, batch, c.now));
    InsertManyExact(s, batch, c.now);
  }

  lemma RedriveStepAgreesIff(s: Store, c: SqlCall)
    requires WellFormed(s) && SlotsUnique(s.jobs) && c.op.RedriveOp?
    ensures SqlStep(s, c) == Some(SkipStep(s, c)) <==> Plain(s, c.op, c.now)
  {
    hide IndexHolds, SlotsUnique, Conflict;
    IndexIsSlots(s.jobs);
    var id := c.op.id;
    if id in s.jobs && s.jobs[id].state.Dead? {
      RedriveAgreesIff(s, id, c.now);
    } else {
      assert UpdateRedriven(s.jobs, id, c.now) == s.jobs;
    }
  }

  /** A collision always shows: it ends a row the store leaves running. */
  lemma CollisionEndsRow(s: Store, lease: Lease, outcome: Outcome, now: Time)
    requires Columns(s.jobs) && ClampCollides(s.jobs, lease)
    ensures TableOf(s, SqlMark(s.jobs, lease, outcome, now)) != Some(s) && JobStore.Mark(s, lease, outcome, now).0 == s
  {
    MatchedRow(s.jobs, lease.id, MAX_INT32);
    assert SetList(s.jobs[lease.id], outcome, now).state != State.Running;
  }

  lemma MarkStepAgreesIff(s: Store, lease: Lease, outcome: Outcome, now: Time)
    requires Columns(s.jobs)
    ensures TableOf(s, SqlMark(s.jobs, lease, outcome, now)) == Some(JobStore.Mark(s, lease, outcome, now).0)
       <==> PlainMark(s, lease, outcome)
  {
    MarkAgreesIff(s, lease, outcome, now);
    if ClampCollides(s.jobs, lease) {
      CollisionEndsRow(s, lease, outcome, now);
    } else if Refusal(s, lease).None? && WritesNull(outcome) {
      MatchedRow(s.jobs, lease.id, AttemptArg(lease.attempt));
    }
    hide SqlMark, ClampCollides, WritesNull, JobStore.Mark;
  }

  /** One call leaves table and store equal exactly when it meets none of the exceptions. */
  lemma StepAgreesIff(s: Store, c: SqlCall)
    requires WellFormed(s) && Columns(s.jobs) && SlotsUnique(s.jobs)
    ensures SqlStep(s, c) == Some(SkipStep(s, c)) <==> Plain(s, c.op, c.now)
  {
    hide Columns, SlotsUnique, SqlMark, SqlFetchAvailable, SqlFetchExpired, SqlExtendLeases, UpdateCancelled, PlainMark;
    match c.op
    case InsertOp(_) => InsertStepAgrees(s, c);
    case InsertManyOp(_) => BatchStepAgrees(s, c);
    case FetchAvailableOp(queue, leaseFor, limit) =>
      hide DueIds;
      FetchAvailableAgreesIff(s, queue, leaseFor, limit, c.now);
      NoVerdict(s, queue, leaseFor, limit, c.now);
    case FetchExpiredOp(leaseFor, limit) =>
      FetchExpiredAgreesIff(s, leaseFor, limit, c.now);
      NoVerdictExpired(s, leaseFor, limit, c.now);
    case ExtendLeasesOp(leases, leaseFor) =>
      hide CollisionShows;
      ExtendAgreesIff(s, leases, leaseFor, c.now);
    case MarkOp(lease, outcome) => MarkStepAgreesIff(s, lease, outcome, c.now);
    case RequeueOp(lease, at, detail) => MarkStepAgreesIff(s, lease, Retry(at, Some(detail)), c.now);
    case CancelOp(id) => CancelAgrees(s, id, c.now);
    case RedriveOp(_) => RedriveStepAgreesIff(s, c);
  }

  lemma NoVerdict(s: Store, queue: Name, leaseFor: Time, limit: int, now: Time)
    ensures var r := SqlFetchAvailable(s.jobs, queue, leaseFor, limit, now); r.Done? ==> r.verdict == None
  {
  }

  lemma NoVerdictExpired(s: Store, leaseFor: Time, limit: int, now: Time)
    ensures var r := SqlFetchExpired(s.jobs, leaseFor, limit, now); r.Done? ==> r.verdict == None
  {
  }

  ghost predicate Fits(t: Table) {
    forall id | id in t :: t[id].attempt <= MAX_INT32
  }

  lemma PlainKeepsFits(s: Store, op: Op, now: Time)
    requires WellFormed(s) && Fits(s.jobs) && Plain(s, op, now)
    ensures Fits(Apply(s, op, now).jobs)
  {
    ApplyIsRowwise(s, op, now);
    hide Apply;
    var t := Apply(s, op, now);
    forall id | id in t.jobs ensures t.jobs[id].attempt <= MAX_INT32 {
      if id in s.jobs {
        var e := EventFor(s, op, now, id);
        assert e.Claimed? ==> s.jobs[id].attempt < MAX_INT32;
      }
    }
  }

  ghost function SkipAdvance(w: World, c: SqlCall): World {
    if Refused(w.store, c.op) then w.(store := SkipStep(w.store, c)) else Advance(w, c.op, c.now)
  }

  /** The in-memory run, skipping ids where the database would. */
  ghost function SkipRun(w: World, calls: seq<SqlCall>): World
    decreases |calls|
  {
    if calls == [] then w else SkipRun(SkipAdvance(w, calls[0]), calls[1..])
  }

  ghost predicate PlainRun(w: World, calls: seq<SqlCall>)
    decreases |calls|
  {
    calls == [] || (Plain(w.store, calls[0].op, calls[0].now) && PlainRun(SkipAdvance(w, calls[0]), calls[1..]))
  }

  ghost function SqlRun(s: Store, calls: seq<SqlCall>): Option<Store>
    decreases |calls|
  {
    if calls == [] then Some(s)
    else match SqlStep(s, calls[0])
      case None => None
      case Some(t) => SqlRun(t, calls[1..])
  }

  lemma SkipKeeps(w: World, c: SqlCall)
    requires Journal.Inv(w) && Fits(w.store.jobs) && SlotsUnique(w.store.jobs) && Plain(w.store, c.op, c.now)
    ensures SkipAdvance(w, c).store == SkipStep(w.store, c)
    ensures Journal.Inv(SkipAdvance(w, c)) && Fits(SkipAdvance(w, c).store.jobs)
    ensures SlotsUnique(SkipAdvance(w, c).store.jobs)
  {
    hide Plain, Apply, SlotsUnique, Fits, Refused, Consistent, Shaped;
    if !Refused(w.store, c.op) {
      PlainKeepsFits(w.store, c.op, c.now);
      PlainKeepsSlots(w.store, c.op, c.now);
      AdvanceKeeps(w, c.op, c.now);
    }
  }

  lemma {:induction false} RunAgrees(w: World, calls: seq<SqlCall>)
    requires Journal.Inv(w) && Fits(w.store.jobs) && SlotsUnique(w.store.jobs) && PlainRun(w, calls)
    ensures SqlRun(w.store, calls) == Some(SkipRun(w, calls).store)
    decreases |calls|
  {
    hide SqlStep, SkipStep, SkipAdvance, Plain, SlotsUnique, Fits;
    if calls != [] {
      FitColumns(w);
      StepAgreesIff(w.store, calls[0]);
      SkipKeeps(w, calls[0]);
      RunAgrees(SkipAdvance(w, calls[0]), calls[1..]);
    }
  }

  lemma FitColumns(w: World)
    requires Journal.Inv(w) && Fits(w.store.jobs)
    ensures Columns(w.store.jobs)
  {
    ReachableColumns(w);
  }

  lemma PlainKeepsSlots(s: Store, op: Op, now: Time)
    requires WellFormed(s) && SlotsUnique(s.jobs) && Plain(s, op, now)
    ensures SlotsUnique(Apply(s, op, now).jobs)
  {
    hide SlotsUnique, Apply, Conflict;
    ApplyKeepsSlots(s, op, now);
  }

  /** From empty, any plain run leaves the same rows in table and store, refused inserts and batches included. */
  lemma SqlRefinesTheStore(calls: seq<SqlCall>)
    requires PlainRun(START, calls)
    ensures SqlRun(EMPTY, calls) == Some(SkipRun(START, calls).store)
  {
    RunAgrees(START, calls);
  }

  ghost predicate NothingRefused(w: World, calls: seq<SqlCall>)
    decreases |calls|
  {
    calls == [] || (!Refused(w.store, calls[0].op) && NothingRefused(SkipAdvance(w, calls[0]), calls[1..]))
  }

  function Plainly(calls: seq<SqlCall>): seq<Call> {
    if calls == [] then [] else [Call(calls[0].op, calls[0].now)] + Plainly(calls[1..])
  }

  /** Where no insert is refused, skipping is no different. */
  lemma {:induction false} SkippingNothing(w: World, calls: seq<SqlCall>)
    requires NothingRefused(w, calls)
    ensures SkipRun(w, calls) == Run(w, Plainly(calls))
    decreases |calls|
  {
    hide Advance, Refused;
    if calls != [] {
      SkippingNothing(SkipAdvance(w, calls[0]), calls[1..]);
      assert Plainly(calls)[1..] == Plainly(calls[1..]);
    }
  }

  // --------------------------------------------------------- the exceptions at an input

  /** A lone job, running its attempt at the top of the column. */
  function Topmost(p: InsertParams): Store {
    Store(1, map[1 := NewRow(1, p, 0).(state := State.Running, attempt := MAX_INT32, leasedUntil := Some(1))])
  }

  /** The holder of a number past the column ends someone else's attempt on the database; the store refuses it. */
  lemma ClampCollision(p: InsertParams)
    ensures var s := Topmost(p);
      var lease := Lease(1, MAX_INT32 + 1);
      && Columns(s.jobs)
      && JobStore.Mark(s, lease, Complete, 0).1 == Some(LeaseLost)
      && SqlMark(s.jobs, lease, Complete, 0)
         == Done(map[1 := s.jobs[1].(state := Completed, finalizedAt := Some(0), leasedUntil := None)], None)
  {
    var s := Topmost(p);
    MatchedRow(s.jobs, 1, MAX_INT32);
    UpdateOne(s.jobs, 1, MAX_INT32, Complete, 0);
  }

  /** On a job just inserted and claimed, a death without detail is accepted in memory and fails the statement. */
  lemma NullWrite(p: InsertParams)
    requires p.scheduledAt.None?
    ensures var s := Run(START, [Call(InsertOp(p), 0), Call(FetchAvailableOp(p.queue, 1, 1), 0)]).store;
      && JobStore.Mark(s, Lease(1, 1), Die(None), 0).1 == None
      && SqlMark(s.jobs, Lease(1, 1), Die(None), 0) == DbError
  {
    var row := NewRow(1, p, 0);
    var first, second := Call(InsertOp(p), 0), Call(FetchAvailableOp(p.queue, 1, 1), 0);
    assert [first, second] == ([] + [first]) + [second];
    RunSnoc(START, [] + [first], second);
    RunSnoc(START, [], first);
    FirstInsert(p);
    LoneClaim(row, 1, 0);
    var s := Run(START, [first, second]).store;
    assert s == Store(1, map[1 := Evolve(row, Claimed(1))]);
    MatchedRow(s.jobs, 1, 1);
  }

  /** A limit past int32 is served in memory, where a job is due, and refused by the database driver. */
  lemma LimitTooLarge(s: Store, queue: Name, id: int)
    requires id in s.jobs && IsDue(s.jobs[id], queue, 0)
    ensures FetchAvailable(s, queue, 1, MAX_INT32 + 1, 0).rows != []
    ensures SqlFetchAvailable(s.jobs, queue, 1, MAX_INT32 + 1, 0) == DbError
    ensures SqlFetchExpired(s.jobs, 1, MAX_INT32 + 1, 0) == DbError
    ensures !Plain(s, FetchAvailableOp(queue, 1, MAX_INT32 + 1), 0) && !Plain(s, FetchExpiredOp(1, MAX_INT32 + 1), 0)
  {
    var key := DueKeys(s.jobs, queue, 0);
    assert id in key;
    assert id in Sorted(key);
  }

  /** Waiting at the top of the column, it can be claimed in memory and not on the database. */
  lemma ClaimOverflow(p: InsertParams)
    ensures var s := Store(1, map[1 := NewRow(1, p, 0).(state := Available, attempt := MAX_INT32, scheduledAt := 0)]);
      && Columns(s.jobs)
      && FetchAvailable(s, p.queue, 1, 1, 0).store.jobs[1].attempt == MAX_INT32 + 1
      && SqlFetchAvailable(s.jobs, p.queue, 1, 1, 0) == DbError
  {
    var s := Store(1, map[1 := NewRow(1, p, 0).(state := Available, attempt := MAX_INT32, scheduledAt := 0)]);
    var key := DueKeys(s.jobs, p.queue, 0);
    assert key == map[1 := 0];
    assert 1 in key;
    assert 1 in Sorted(key);
    assert DueIds(s, p.queue, 1, 0) == Sorted(key);
    assert Limited(SqlDue(s.jobs, p.queue, 0), 1) == {1} by {
      SameDue(s, p.queue, 1, 0, 1);
    }
  }
}
