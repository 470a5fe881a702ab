/**
 Unique slots and batches: a non-empty key admits one non-terminal row per queue
 and kind, and a batch is judged as if its items were inserted one by one.
 */
module UniqueSlots {
  import opened Jobs
  import opened JobStore
  import opened Journal

  predicate SameSlot(a: Row, b: Row) {
    a.uniqueKey.Some? && InSlot(a, b.queue, b.kind, b.uniqueKey)
  }

  /** No two non-terminal rows share queue, kind and non-empty key. */
  ghost predicate SlotsUnique(jobs: Table) {
    forall a, b | a in jobs && b in jobs && a != b ::
      jobs[a].state.UniqueActive() && jobs[b].state.UniqueActive() ==> !SameSlot(jobs[a], jobs[b])
  }

  /** The row's slot as an insert would ask for it. */
  function SlotOf(row: Row): InsertParams {
    InsertParams(row.kind, row.queue, row.args, None, row.uniqueKey)
  }

  lemma InsertKeepsSlots(s: Store, p: InsertParams, now: Time)
    requires WellFormed(s) && SlotsUnique(s.jobs)
    ensures SlotsUnique(Insert(s, p, now).0.jobs)
  {
  }

  lemma {:induction false} InsertEachKeepsSlots(s: Store, batch: seq<InsertParams>, now: Time)
    requires WellFormed(s) && SlotsUnique(s.jobs)
    ensures WellFormed(InsertEach(s, batch, now).0) && SlotsUnique(InsertEach(s, batch, now).0.jobs)
    decreases |batch|
  {
    if batch != [] {
      InsertEachKeepsSlots(s, batch[..|batch| - 1], now);
      InsertEachExtends(s, batch, now);
      InsertKeepsSlots(InsertEach(s, batch[..|batch| - 1], now).0, batch[|batch| - 1], now);
    }
  }

  lemma EventKeepsSlot(row: Row, e: Event)
    requires Allowed(row, e)
    ensures Evolve(row, e).uniqueKey == row.uniqueKey
    ensures Evolve(row, e).queue == row.queue && Evolve(row, e).kind == row.kind
    ensures !e.Redriven? && Evolve(row, e).state.UniqueActive() ==> row.state.UniqueActive()
  {
  }

  lemma OtherOpsKeepSlots(s: Store, op: Op, now: Time)
    requires WellFormed(s) && SlotsUnique(s.jobs)
    requires !op.InsertOp? && !op.InsertManyOp? && !op.RedriveOp?
    ensures SlotsUnique(Apply(s, op, now).jobs)
  {
    ApplyIsRowwise(s, op, now);
    var t := Apply(s, op, now);
    assert t.jobs.Keys == s.jobs.Keys;
    forall id | id in t.jobs
      ensures t.jobs[id].uniqueKey == s.jobs[id].uniqueKey
      ensures t.jobs[id].queue == s.jobs[id].queue && t.jobs[id].kind == s.jobs[id].kind
      ensures t.jobs[id].state.UniqueActive() ==> s.jobs[id].state.UniqueActive()
    {
      EventKeepsSlot(s.jobs[id], EventFor(s, op, now, id));
    }
  }

  /** A redrive keeps slots unique exactly when an insert of the same key would be accepted. */
  lemma RedriveKeepsSlotsIff(s: Store, id: int, now: Time)
    requires WellFormed(s) && SlotsUnique(s.jobs) && id in s.jobs && s.jobs[id].state.Dead?
    ensures SlotsUnique(RedriveDead(s, id, now).0.jobs) <==> !Conflict(s.jobs, SlotOf(s.jobs[id]))
  {
    var t := RedriveDead(s, id, now).0.jobs;
    if Conflict(s.jobs, SlotOf(s.jobs[id])) {
      var k :| k in s.jobs && s.jobs[k].state.UniqueActive()
               && InSlot(s.jobs[k], s.jobs[id].queue, s.jobs[id].kind, s.jobs[id].uniqueKey);
      assert k in t && SameSlot(t[k], t[id]);
    }
  }

  /** The redrives of a call never revive a key that is taken. */
  ghost predicate RedrivesFree(s: Store, op: Op) {
    op.RedriveOp? && op.id in s.jobs && s.jobs[op.id].state.Dead? ==> !Conflict(s.jobs, SlotOf(s.jobs[op.id]))
  }

  ghost predicate FreeRun(w: World, calls: seq<Call>)
    decreases |calls|
  {
    calls == [] ||
    (RedrivesFree(w.store, calls[0].op) && FreeRun(Advance(w, calls[0].op, calls[0].now), calls[1..]))
  }

  lemma ApplyKeepsSlots(s: Store, op: Op, now: Time)
    requires WellFormed(s) && SlotsUnique(s.jobs) && RedrivesFree(s, op)
    ensures SlotsUnique(Apply(s, op, now).jobs)
  {
    match op
    case InsertOp(p) => InsertKeepsSlots(s, p, now);
    case InsertManyOp(batch) => InsertEachKeepsSlots(s, batch, now);
    case RedriveOp(id) =>
      if id in s.jobs && s.jobs[id].state.Dead? {
        RedriveKeepsSlotsIff(s, id, now);
      }
    case _ => OtherOpsKeepSlots(s, op, now);
  }

  lemma {:induction false} RunKeepsSlots(w: World, calls: seq<Call>)
    requires Inv(w) && SlotsUnique(w.store.jobs) && FreeRun(w, calls)
    ensures SlotsUnique(Run(w, calls).store.jobs)
    decreases |calls|
  {
    if calls != [] {
      ApplyKeepsSlots(w.store, calls[0].op, calls[0].now);
      AdvanceKeeps(w, calls[0].op, calls[0].now);
      RunKeepsSlots(Advance(w, calls[0].op, calls[0].now), calls[1..]);
    }
  }

  /** Slots stay unique in every run whose redrives find their slot free. */
  lemma SlotsUniqueOverRuns(calls: seq<Call>)
    requires FreeRun(START, calls)
    ensures SlotsUnique(Run(START, calls).store.jobs)
  {
    RunKeepsSlots(START, calls);
  }

  // ------------------------------------------------------- a run that breaks a slot

  lemma {:induction false} RunSnoc(w: World, calls: seq<Call>, c: Call)
    ensures Run(w, calls + [c]).store == Apply(Run(w, calls).store, c.op, c.now)
    decreases |calls|
  {
    hide Apply;
    if calls == [] {
      assert (calls + [c])[1..] == [];
    } else {
      assert (calls + [c])[1..] == calls[1..] + [c];
      RunSnoc(Advance(w, calls[0].op, calls[0].now), calls[1..], c);
    }
  }

  /** A lone due job is the one a claim takes. */
  lemma LoneClaim(row: Row, leaseFor: Time, now: Time)
    requires row.id == 1 && IsDue(row, row.queue, now)
    ensures FetchAvailable(Store(1, map[1 := row]), row.queue, leaseFor, 1, now).store
         == Store(1, map[1 := Evolve(row, Claimed(now + leaseFor))])
  {
    hide Evolve;
    var s := Store(1, map[1 := row]);
    var key := DueKeys(s.jobs, row.queue, now);
    assert 1 in key && key.Keys == {1};
    assert 1 in DueIds(s, row.queue, 1, now);
  }

  /** Insert, claim, fail for good, insert again under the same key, redrive the dead one. */
  function TakenSlot(p: InsertParams, d: Detail): seq<Call> {
    [Call(InsertOp(p), 0), Call(FetchAvailableOp(p.queue, 1, 1), 0), Call(MarkOp(Lease(1, 1), Die(Some(d))), 0),
     Call(InsertOp(p), 0)]
  }

  lemma FirstInsert(p: InsertParams)
    ensures Apply(EMPTY, InsertOp(p), 0) == Store(1, map[1 := NewRow(1, p, 0)])
  {
    hide NewRow;
    assert !Conflict(map[], p);
  }

  lemma LoneDeath(row: Row, d: Detail)
    requires row.state.Running? && row.attempt == 1
    ensures Apply(Store(1, map[1 := row]), MarkOp(Lease(1, 1), Die(Some(d))), 0)
         == Store(1, map[1 := Evolve(row, Ended(Die(Some(d)), 0))])
  {
    hide Evolve;
    var s := Store(1, map[1 := row]);
    assert Refusal(s, Lease(1, 1)).None?;
    assert s.jobs[1 := Evolve(row, Ended(Die(Some(d)), 0))] == map[1 := Evolve(row, Ended(Die(Some(d)), 0))];
  }

  lemma SecondInsert(dead: Row, p: InsertParams)
    requires dead.state.Dead?
    ensures Apply(Store(1, map[1 := dead]), InsertOp(p), 0) == Store(2, map[1 := dead, 2 := NewRow(2, p, 0)])
  {
    hide NewRow;
    assert !Conflict(map[1 := dead], p);
  }

  lemma BeforeTheRedrive(p: InsertParams, d: Detail)
    requires p.uniqueKey.Some? && p.scheduledAt.None?
    ensures var s := Run(START, TakenSlot(p, d)).store;
      && s.nextID == 2 && s.jobs.Keys == {1, 2} && WellFormed(s)
      && s.jobs[1].state.Dead? && InSlot(s.jobs[1], p.queue, p.kind, p.uniqueKey)
      && s.jobs[2].state.Available? && InSlot(s.jobs[2], p.queue, p.kind, p.uniqueKey)
  {
    var calls := TakenSlot(p, d);
    assert calls[..0] == [] && calls[..1] == [] + [calls[0]];
    assert calls[..2] == calls[..1] + [calls[1]] && calls[..3] == calls[..2] + [calls[2]];
    assert calls == calls[..3] + [calls[3]];
    assert Run(START, []).store == EMPTY;
    RunSnoc(START, [], calls[0]);
    RunSnoc(START, calls[..1], calls[1]);
    RunSnoc(START, calls[..2], calls[2]);
    RunSnoc(START, calls[..3], calls[3]);
    var row := NewRow(1, p, 0);
    var claimed := Evolve(row, Claimed(1));
    var dead := Evolve(claimed, Ended(Die(Some(d)), 0));
    FirstInsert(p);
    LoneClaim(row, 1, 0);
    LoneDeath(claimed, d);
    SecondInsert(dead, p);
    hide Run, Insert, Mark, FetchAvailable;
  }

  /** Without the condition, a redrive can put two live rows in one slot. */
  lemma RedriveBreaksSlots(p: InsertParams, d: Detail)
    requires p.uniqueKey.Some? && p.scheduledAt.None?
    ensures SlotsUnique(Run(START, TakenSlot(p, d)).store.jobs)
    ensures !SlotsUnique(Run(START, TakenSlot(p, d) + [Call(RedriveOp(1), 0)]).store.jobs)
  {
    hide Run;
    var s := Run(START, TakenSlot(p, d)).store;
    BeforeTheRedrive(p, d);
    RunSnoc(START, TakenSlot(p, d), Call(RedriveOp(1), 0));
    hide TakenSlot;
    RedriveKeepsSlotsIff(s, 1, 0);
    assert 2 in s.jobs && s.jobs[2].state.UniqueActive() && InSlot(s.jobs[2], p.queue, p.kind, p.uniqueKey);
  }

  /** A second insert under the key of a job still waiting is refused. */
  lemma KeyIsTaken(p: InsertParams)
    requires p.uniqueKey.Some?
    ensures Insert(Apply(EMPTY, InsertOp(p), 0), p, 0).1 == Err(DuplicateJob)
  {
    FirstInsert(p);
    assert LiveIn(map[1 := NewRow(1, p, 0)][1], p.queue, p.kind, p.uniqueKey);
    ConflictIsOccupied(map[1 := NewRow(1, p, 0)], p);
  }

  /** Insert, claim, complete: the key is free again. */
  function Finished(p: InsertParams): seq<Call> {
    [Call(InsertOp(p), 0), Call(FetchAvailableOp(p.queue, 1, 1), 0), Call(MarkOp(Lease(1, 1), Complete), 0)]
  }

  /** A finished job gives its key back: the same insert succeeds again, as job 2. */
  lemma KeyComesBack(p: InsertParams)
    requires p.uniqueKey.Some? && p.scheduledAt.None?
    ensures Insert(Run(START, Finished(p)).store, p, 0).1 == Ok(NewRow(2, p, 0))
  {
    var calls := Finished(p);
    assert calls[..1] == [] + [calls[0]] && calls[..2] == calls[..1] + [calls[1]] && calls == calls[..2] + [calls[2]];
    RunSnoc(START, [], calls[0]);
    RunSnoc(START, calls[..1], calls[1]);
    RunSnoc(START, calls[..2], calls[2]);
    var row := NewRow(1, p, 0);
    FirstInsert(p);
    LoneClaim(row, 1, 0);
    LoneCompletion(Evolve(row, Claimed(1)));
    var done := Evolve(Evolve(row, Claimed(1)), Ended(Complete, 0));
    hide Run, FetchAvailable, Mark;
    assert Run(START, calls).store == Store(1, map[1 := done]);
    ConflictIsOccupied(map[1 := done], p);
  }

  lemma LoneCompletion(row: Row)
    requires row.state.Running? && row.attempt == 1
    ensures Apply(Store(1, map[1 := row]), MarkOp(Lease(1, 1), Complete), 0)
         == Store(1, map[1 := Evolve(row, Ended(Complete, 0))])
  {
    hide Evolve;
    var s := Store(1, map[1 := row]);
    assert Refusal(s, Lease(1, 1)).None?;
    assert s.jobs[1 := Evolve(row, Ended(Complete, 0))] == map[1 := Evolve(row, Ended(Complete, 0))];
  }

  // ---------------------------------------------------------------- batches

  predicate ParamsClash(a: InsertParams, b: InsertParams) {
    a.uniqueKey.Some? && a.uniqueKey == b.uniqueKey && a.queue == b.queue && a.kind == b.kind
  }

  /** No item is refused by the store, and no two items want one slot. */
  ghost predicate Clean(jobs: Table, batch: seq<InsertParams>) {
    && (forall i | 0 <= i < |batch| :: !Conflict(jobs, batch[i]))
    && (forall i, j | 0 <= i < j < |batch| :: !ParamsClash(batch[i], batch[j]))
  }

  /** The rows a batch adds: consecutive ids from the next one, in batch order. */
  ghost function Added(nextID: int, batch: seq<InsertParams>, now: Time): (rows: Table)
    ensures forall id :: id in rows <==> nextID < id <= nextID + |batch|
    ensures forall id | id in rows :: rows[id] == NewRow(id, batch[id - nextID - 1], now)
    decreases |batch|
  {
    if batch == [] then map[]
    else
      var n := |batch| - 1;
      Added(nextID, batch[..n], now)[nextID + |batch| := NewRow(nextID + |batch|, batch[n], now)]
  }

  lemma BatchTakesSlots(s: Store, batch: seq<InsertParams>, now: Time, p: InsertParams)
    requires WellFormed(s)
    requires Conflict(s.jobs, p) || exists i | 0 <= i < |batch| :: ParamsClash(batch[i], p)
    ensures Conflict(s.jobs + Added(s.nextID, batch, now), p)
  {
    var all := s.jobs + Added(s.nextID, batch, now);
    if Conflict(s.jobs, p) {
      var id :| id in s.jobs && s.jobs[id].state.UniqueActive() && InSlot(s.jobs[id], p.queue, p.kind, p.uniqueKey);
      assert id in all && all[id] == s.jobs[id];
    } else {
      var i :| 0 <= i < |batch| && ParamsClash(batch[i], p);
      var id := s.nextID + 1 + i;
      assert id in all && all[id] == NewRow(id, batch[i], now);
    }
  }

  lemma TakenSlotsAreKnown(s: Store, batch: seq<InsertParams>, now: Time, p: InsertParams)
    requires WellFormed(s)
    requires Conflict(s.jobs + Added(s.nextID, batch, now), p)
    ensures Conflict(s.jobs, p) || exists i | 0 <= i < |batch| :: ParamsClash(batch[i], p)
  {
  }

  lemma ConflictWithBatch(s: Store, batch: seq<InsertParams>, now: Time, p: InsertParams)
    requires WellFormed(s)
    ensures Conflict(s.jobs + Added(s.nextID, batch, now), p)
       <==> Conflict(s.jobs, p) || exists i | 0 <= i < |batch| :: ParamsClash(batch[i], p)
  {
    if Conflict(s.jobs + Added(s.nextID, batch, now), p) {
      TakenSlotsAreKnown(s, batch, now, p);
    }
    if Conflict(s.jobs, p) || exists i | 0 <= i < |batch| :: ParamsClash(batch[i], p) {
      BatchTakesSlots(s, batch, now, p);
    }
  }

  ghost function BatchRows(nextID: int, batch: seq<InsertParams>, now: Time): seq<Row> {
    seq(|batch|, i requires 0 <= i < |batch| => NewRow(nextID + 1 + i, batch[i], now))
  }

  lemma {:induction false} InsertEachExact(s: Store, batch: seq<InsertParams>, now: Time)
    requires WellFormed(s)
    ensures Clean(s.jobs, batch) ==>
      InsertEach(s, batch, now)
      == (Store(s.nextID + |batch|, s.jobs + Added(s.nextID, batch, now)), Ok(BatchRows(s.nextID, batch, now)))
    ensures !Clean(s.jobs, batch) ==> InsertEach(s, batch, now).1 == Err(DuplicateJob)
    decreases |batch|
  {
    if batch == [] {
      assert s.jobs + Added(s.nextID, batch, now) == s.jobs;
      assert BatchRows(s.nextID, batch, now) == [];
    } else {
      InsertEachExact(s, batch[..|batch| - 1], now);
      hide Clean, InsertEach, Added, BatchRows;
      OneMoreInserted(s, batch, now);
    }
  }

  lemma OneMoreInserted(s: Store, batch: seq<InsertParams>, now: Time)
    requires WellFormed(s) && batch != []
    requires var init := batch[..|batch| - 1];
      && (Clean(s.jobs, init) ==>
            InsertEach(s, init, now)
            == (Store(s.nextID + |init|, s.jobs + Added(s.nextID, init, now)), Ok(BatchRows(s.nextID, init, now))))
      && (!Clean(s.jobs, init) ==> InsertEach(s, init, now).1 == Err(DuplicateJob))
    ensures Clean(s.jobs, batch) ==>
      InsertEach(s, batch, now)
      == (Store(s.nextID + |batch|, s.jobs + Added(s.nextID, batch, now)), Ok(BatchRows(s.nextID, batch, now)))
    ensures !Clean(s.jobs, batch) ==> InsertEach(s, batch, now).1 == Err(DuplicateJob)
  {
    hide Conflict, NewRow, Added, BatchRows, Clean, ParamsClash;
    var n := |batch| - 1;
    ConflictWithBatch(s, batch[..n], now, batch[n]);
    CleanSnoc(s.jobs, batch);
    if Clean(s.jobs, batch) {
      RowsSnoc(s.nextID, batch, now);
      AddedSnoc(s.jobs, s.nextID, batch, now);
    }
  }

  lemma CleanSnoc(jobs: Table, batch: seq<InsertParams>)
    requires batch != []
    ensures var n := |batch| - 1;
      Clean(jobs, batch) <==> Clean(jobs, batch[..n]) && !Conflict(jobs, batch[n])
                              && forall i | 0 <= i < n :: !ParamsClash(batch[..n][i], batch[n])
  {
  }

  lemma AddedSnoc(jobs: Table, nextID: int, batch: seq<InsertParams>, now: Time)
    requires batch != []
    ensures (jobs + Added(nextID, batch[..|batch| - 1], now))
              [nextID + |batch| := NewRow(nextID + |batch|, batch[|batch| - 1], now)]
         == jobs + Added(nextID, batch, now)
  {
  }

  lemma RowsSnoc(nextID: int, batch: seq<InsertParams>, now: Time)
    requires batch != []
    ensures BatchRows(nextID, batch[..|batch| - 1], now) + [NewRow(nextID + |batch|, batch[|batch| - 1], now)]
         == BatchRows(nextID, batch, now)
  {
  }

  /**
   InsertMany accepts a batch exactly when no item clashes with a live row or an earlier
   item; it then adds consecutive ids in batch order, and otherwise leaves the store alone.
   */
  lemma InsertManyExact(s: Store, batch: seq<InsertParams>, now: Time)
    requires WellFormed(s)
    ensures InsertMany(s, batch, now)
         == if Clean(s.jobs, batch)
            then (Store(s.nextID + |batch|, s.jobs + Added(s.nextID, batch, now)),
                  Ok(BatchRows(s.nextID, batch, now)))
            else (s, Err(DuplicateJob))
  {
    InsertEachExact(s, batch, now);
  }
}
