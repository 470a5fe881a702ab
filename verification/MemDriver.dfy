/**
 The in-memory driver: the store's rows in a map, changed in place. Every method is
 one step of JobStore. The clock is a parameter.
 */
module MemDriver {
  import opened Jobs
  import opened Ordering
  import opened QueueStats
  import S = JobStore
  import U = UniqueSlots

  class Driver {
    var nextID: int
    var jobs: S.Table

    ghost function Model(): S.Store
      reads this
    {
      S.Store(nextID, jobs)
    }

    constructor ()
      ensures Model() == S.EMPTY
    {
      nextID, jobs := 0, map[];
    }

    /** A row as an insert of p leaves it. */
    static ghost predicate Stores(row: Row, id: int, p: InsertParams, now: Time) {
      && row.id == id && row.kind == p.kind && row.queue == p.queue && row.args == p.args
      && row.uniqueKey == p.uniqueKey
      && row.attempt == 0 && row.maxAttempts == 25 && row.errors == [] && row.createdAt == now
      && row.leasedUntil == None && row.finalizedAt == None
      && row.scheduledAt == (if p.scheduledAt == None then now else p.scheduledAt.value)
      && row.state == (if row.scheduledAt > now then Scheduled else Available)
    }

    static ghost predicate ClashesWith(rows: seq<Row>, p: InsertParams) {
      p.uniqueKey.Some? && exists i | 0 <= i < |rows| :: S.InSlot(rows[i], p.queue, p.kind, p.uniqueKey)
    }

    /** Whether p's key is taken by a live row, or by a row earlier in the same batch. */
    method UniqueConflict(p: InsertParams, extra: seq<Row>) returns (taken: bool)
      ensures taken <==> (S.Conflict(jobs, p) || ClashesWith(extra, p))
      ensures taken <==> p.uniqueKey.Some? && (S.Occupied(jobs, p.queue, p.kind, p.uniqueKey) || ClashesWith(extra, p))
    {
      S.ConflictIsOccupied(jobs, p);
      if p.uniqueKey.None? {
        return false;
      }
      var todo := jobs.Keys;
      while todo != {}
        invariant todo <= jobs.Keys
        invariant forall id | id in jobs && id !in todo ::
          !(jobs[id].state.UniqueActive() && S.InSlot(jobs[id], p.queue, p.kind, p.uniqueKey))
      {
        SomeElement(todo);
        var id :| id in todo;
        if jobs[id].state.UniqueActive() && S.InSlot(jobs[id], p.queue, p.kind, p.uniqueKey) {
          return true;
        }
        todo := todo - {id};
      }
      for i := 0 to |extra|
        invariant forall k | 0 <= k < i :: !S.InSlot(extra[k], p.queue, p.kind, p.uniqueKey)
      {
        if S.InSlot(extra[i], p.queue, p.kind, p.uniqueKey) {
          return true;
        }
      }
      return false;
    }

    /** Refused exactly while an unfinished job holds the key; otherwise the job waits from its due time on. */
    method Insert(p: InsertParams, now: Time) returns (r: Result<Row>)
      modifies this
      ensures (Model(), r) == S.Insert(old(Model()), p, now)
      ensures r == Err(DuplicateJob) <==> p.uniqueKey.Some? && S.Occupied(old(jobs), p.queue, p.kind, p.uniqueKey)
      ensures r.Ok? ==> Stores(r.value, old(nextID) + 1, p, now)
    {
      S.ConflictIsOccupied(jobs, p);
      var taken := UniqueConflict(p, []);
      if taken {
        return Err(DuplicateJob);
      }
      nextID := nextID + 1;
      var row := S.NewRow(nextID, p, now);
      jobs := jobs[row.id := row];
      r := Ok(row);
    }

    method InsertMany(batch: seq<InsertParams>, now: Time) returns (r: Result<seq<Row>>)
      requires S.WellFormed(Model())
      modifies this
      ensures (Model(), r) == S.InsertMany(old(Model()), batch, now)
    {
      U.InsertManyExact(Model(), batch, now);
      var pending, accepted := Stage(batch, now);
      if !accepted {
        return Err(DuplicateJob);
      }
      Write(pending, batch, now);
      nextID := nextID + |batch|;
      r := Ok(pending);
    }

    /** The second pass of InsertMany. */
    method Write(pending: seq<Row>, ghost batch: seq<InsertParams>, ghost now: Time)
      requires pending == U.BatchRows(nextID, batch, now)
      modifies this`jobs
      ensures jobs == old(jobs) + U.Added(nextID, batch, now)
    {
      hide U.Added;
      ghost var before := jobs;
      WriteStarts(before, nextID, now);
      for i := 0 to |pending|
        invariant jobs == before + U.Added(nextID, batch[..i], now)
      {
        assert batch[..i + 1][..i] == batch[..i];
        U.AddedSnoc(before, nextID, batch[..i + 1], now);
        jobs := jobs[pending[i].id := pending[i]];
      }
      assert batch[..|batch|] == batch;
    }

    static lemma WriteStarts(jobs: S.Table, nextID: int, now: Time)
      ensures forall batch: seq<InsertParams> | batch == [] :: jobs + U.Added(nextID, batch, now) == jobs
    {
    }

    /** The first pass of InsertMany: builds the rows, stopping at the first clash. */
    method Stage(batch: seq<InsertParams>, now: Time) returns (pending: seq<Row>, accepted: bool)
      ensures accepted <==> U.Clean(jobs, batch)
      ensures accepted ==> pending == U.BatchRows(nextID, batch, now)
    {
      pending := [];
      for i := 0 to |batch|
        invariant pending == U.BatchRows(nextID, batch[..i], now)
        invariant U.Clean(jobs, batch[..i])
      {
        var taken := UniqueConflict(batch[i], pending);
        CleanSoFar(jobs, batch, i, pending, nextID, now);
        if taken {
          return pending, false;
        }
        U.RowsSnoc(nextID, batch[..i + 1], now);
        assert batch[..i + 1][..i] == batch[..i];
        pending := pending + [S.NewRow(nextID + i + 1, batch[i], now)];
      }
      assert batch[..|batch|] == batch;
      accepted := true;
    }

    static lemma CleanSoFar(jobs: S.Table, batch: seq<InsertParams>, i: nat, pending: seq<Row>, nextID: int, now: Time)
      requires i < |batch| && U.Clean(jobs, batch[..i]) && pending == U.BatchRows(nextID, batch[..i], now)
      ensures U.Clean(jobs, batch[..i + 1]) <==> !(S.Conflict(jobs, batch[i]) || ClashesWith(pending, batch[i]))
      ensures U.Clean(jobs, batch) ==> U.Clean(jobs, batch[..i + 1])
    {
      assert batch[..i + 1][..i] == batch[..i];
      U.CleanSnoc(jobs, batch[..i + 1]);
      assert forall k | 0 <= k < i ::
        U.ParamsClash(batch[..i][k], batch[i])
        <==> batch[i].uniqueKey.Some? && S.InSlot(pending[k], batch[i].queue, batch[i].kind, batch[i].uniqueKey);
      assert forall k | 0 <= k <= i :: batch[..i + 1][k] == batch[k];
    }

    /** Claims up to limit due jobs of one queue, earliest due first. */
    method FetchAvailable(queue: Name, leaseFor: Time, limit: int, now: Time) returns (claimed: seq<Row>)
      modifies this
      ensures S.Fetched(Model(), claimed) == S.FetchAvailable(old(Model()), queue, leaseFor, limit, now)
    {
      var due := SortIds(S.DueKeys(jobs, queue, now));
      DueAreStored(Model(), queue, now);
      claimed := TouchFirst(due, limit, S.Claimed(now + leaseFor), S.DueKeys(jobs, queue, now));
    }

    /** Re-claims up to limit running jobs whose lease has passed, oldest lease first. */
    method FetchExpired(leaseFor: Time, limit: int, now: Time) returns (reclaimed: seq<Row>)
      modifies this
      ensures S.Fetched(Model(), reclaimed) == S.FetchExpired(old(Model()), leaseFor, limit, now)
    {
      var expired := SortIds(S.ExpiredKeys(jobs, now));
      ExpiredAreStored(Model(), now);
      reclaimed := TouchFirst(expired, limit, S.Renewed(now + leaseFor), S.ExpiredKeys(jobs, now));
    }

    /** The loop of both fetches: changes each row in place until limit of them are taken. */
    method TouchFirst(ids: seq<int>, limit: int, e: S.Event, ghost key: map<int, int>) returns (rows: seq<Row>)
      requires Ordered(key, ids) && forall i | 0 <= i < |ids| :: ids[i] in jobs
      modifies this`jobs
      ensures jobs == S.EvolveAll(old(jobs), S.Take(ids, limit), e)
      ensures forall i | 0 <= i < |S.Take(ids, limit)| :: S.Take(ids, limit)[i] in jobs
      ensures rows == S.RowsOf(jobs, S.Take(ids, limit))
    {
      ghost var before := jobs;
      rows := [];
      while |rows| < |ids| && |rows| != limit
        invariant |rows| <= |ids|
        invariant limit >= 0 ==> |rows| <= limit
        invariant Progress(before, ids, |rows|, e, jobs, rows)
      {
        var id := ids[|rows|];
        OneMore(key, before, ids, |rows|, e, jobs, rows);
        assert jobs[id] == before[id];
        var row := S.Evolve(jobs[id], e);
        jobs := jobs[id := row];
        rows := rows + [row];
      }
      Finished(before, ids, limit, e, jobs, rows);
    }

    static lemma DueAreStored(s: S.Store, queue: Name, now: Time)
      ensures forall i | 0 <= i < |Sorted(S.DueKeys(s.jobs, queue, now))| ::
        Sorted(S.DueKeys(s.jobs, queue, now))[i] in s.jobs
    {
    }

    static lemma ExpiredAreStored(s: S.Store, now: Time)
      ensures forall i | 0 <= i < |Sorted(S.ExpiredKeys(s.jobs, now))| ::
        Sorted(S.ExpiredKeys(s.jobs, now))[i] in s.jobs
    {
    }

    /** The first n of ids have undergone e, and rows lists what they became. */
    static ghost predicate Progress(
      before: S.Table, ids: seq<int>, n: nat, e: S.Event, after: S.Table, rows: seq<Row>)
    {
      && n <= |ids| && |rows| == n
      && (forall i | 0 <= i < |ids| :: ids[i] in before)
      && after == S.EvolveAll(before, ids[..n], e)
      && forall i | 0 <= i < n :: rows[i] == S.Evolve(before[ids[i]], e)
    }

    static lemma OneMore(
      key: map<int, int>, before: S.Table, ids: seq<int>, n: nat, e: S.Event, after: S.Table, rows: seq<Row>)
      requires Ordered(key, ids) && n < |ids| && Progress(before, ids, n, e, after, rows)
      ensures ids[n] in after && after[ids[n]] == before[ids[n]]
      ensures var row := S.Evolve(before[ids[n]], e);
        Progress(before, ids, n + 1, e, after[ids[n] := row], rows + [row])
    {
    }

    static lemma Finished(before: S.Table, ids: seq<int>, limit: int, e: S.Event, after: S.Table, rows: seq<Row>)
      requires Progress(before, ids, |rows|, e, after, rows)
      requires |rows| == |ids| || |rows| == limit
      requires limit >= 0 ==> |rows| <= limit
      ensures var taken := S.Take(ids, limit);
        && after == S.EvolveAll(before, taken, e)
        && (forall i | 0 <= i < |taken| :: taken[i] in after)
        && rows == S.RowsOf(after, taken)
    {
    }

    /** Pushes each held lease out; a lease the row no longer carries is skipped. */
    method ExtendLeases(leases: seq<Lease>, leaseFor: Time, now: Time)
      modifies this
      ensures Model() == S.ExtendLeases(old(Model()), leases, leaseFor, now)
    {
      var until := now + leaseFor;
      ghost var before := Model();
      for i := 0 to |leases|
        invariant Model() == S.ExtendLeases(before, leases[..i], leaseFor, now)
      {
        var held := leases[i];
        ExtendOneMore(before, leases, i, leaseFor, now);
        if held.id in jobs && jobs[held.id].state.Running? && jobs[held.id].attempt == held.attempt {
          jobs := jobs[held.id := S.Evolve(jobs[held.id], S.Renewed(until))];
        }
      }
      assert leases[..|leases|] == leases;
    }

    static lemma ExtendOneMore(s: S.Store, leases: seq<Lease>, i: nat, leaseFor: Time, now: Time)
      requires i < |leases|
      ensures var t := S.ExtendLeases(s, leases[..i], leaseFor, now);
        var held := leases[i];
        S.ExtendLeases(s, leases[..i + 1], leaseFor, now)
        == if held.id in t.jobs && t.jobs[held.id].state.Running? && t.jobs[held.id].attempt == held.attempt
           then t.(jobs := t.jobs[held.id := S.Evolve(t.jobs[held.id], S.Renewed(now + leaseFor))]) else t
    {
    }

    /** The guard behind every Mark method: state first, then the attempt. */
    method Transition(lease: Lease, outcome: Outcome, now: Time) returns (err: Option<Error>)
      modifies this
      ensures (Model(), err) == S.Mark(old(Model()), lease, outcome, now)
      ensures err == Some(NotFound) <==> lease.id !in old(jobs)
      ensures err == Some(InvalidTransition) <==> lease.id in old(jobs) && old(jobs[lease.id]).state != Running
      ensures err == Some(LeaseLost) <==> lease.id in old(jobs) && old(jobs[lease.id]).state == Running
                                          && old(jobs[lease.id]).attempt != lease.attempt
    {
      if lease.id !in jobs {
        return Some(NotFound);
      }
      var row := jobs[lease.id];
      if row.state != Running {
        return Some(InvalidTransition);
      }
      if row.attempt != lease.attempt {
        return Some(LeaseLost);
      }
      jobs := jobs[lease.id := S.Evolve(row, S.Ended(outcome, now))];
      err := None;
    }

    method OperatorCancel(id: int, now: Time) returns (r: Result<Row>)
      modifies this
      ensures (Model(), r) == S.OperatorCancel(old(Model()), id, now)
      ensures r == Err(NotFound) <==> id !in old(jobs)
      ensures r == Err(InvalidTransition) <==> id in old(jobs) && old(jobs[id]).state in {Running, Completed, Cancelled}
      ensures r.Err? ==> r == Err(NotFound) || r == Err(InvalidTransition)
    {
      if id !in jobs {
        return Err(NotFound);
      }
      if !jobs[id].state.Cancellable() {
        return Err(InvalidTransition);
      }
      var row := S.Evolve(jobs[id], S.Withdrawn(now));
      jobs := jobs[id := row];
      r := Ok(row);
    }

    method RedriveDead(id: int, now: Time) returns (r: Result<Row>)
      modifies this
      ensures (Model(), r) == S.RedriveDead(old(Model()), id, now)
      ensures r == Err(NotFound) <==> id !in old(jobs)
      ensures r == Err(InvalidTransition) <==> id in old(jobs) && old(jobs[id]).state != Dead
      ensures r.Err? ==> r == Err(NotFound) || r == Err(InvalidTransition)
    {
      if id !in jobs {
        return Err(NotFound);
      }
      if jobs[id].state != Dead {
        return Err(InvalidTransition);
      }
      var row := S.Evolve(jobs[id], S.Redriven(now));
      jobs := jobs[id := row];
      r := Ok(row);
    }

    static ghost function Visited(jobs: S.Table, todo: set<int>): S.Table {
      map id | id in jobs && id !in todo :: jobs[id]
    }

    static lemma VisitOneMore(jobs: S.Table, todo: set<int>, id: int)
      requires id in jobs && id in todo
      ensures id !in Visited(jobs, todo)
      ensures Visited(jobs, todo - {id}) == Visited(jobs, todo)[id := jobs[id]]
    {
    }

    /** One walk over the rows, in whatever order they come. */
    method Stats(now: Time) returns (st: Stats)
      ensures Reports(st, jobs, now)
    {
      var counts: map<Depth, nat>, oldest: map<Name, Time> := map[], map[];
      var todo := jobs.Keys;
      assert Visited(jobs, todo) == map[];
      while todo != {}
        invariant todo <= jobs.Keys
        invariant CountsDepths(counts, Visited(jobs, todo)) && FindsOldest(oldest, Visited(jobs, todo), now)
      {
        SomeElement(todo);
        var id :| id in todo;
        var row := jobs[id];
        VisitOneMore(jobs, todo, id);
        DepthsGrow(counts, Visited(jobs, todo), id, row);
        OldestGrows(oldest, Visited(jobs, todo), now, id, row);
        var d := Depth(row.queue, row.state);
        if row.state.Counted() {
          counts := counts[d := 1 + if d in counts then counts[d] else 0];
        }
        if row.state.Waiting() && row.scheduledAt <= now &&
           (row.queue in oldest ==> row.scheduledAt < oldest[row.queue]) {
          oldest := oldest[row.queue := row.scheduledAt];
        }
        todo := todo - {id};
      }
      assert Visited(jobs, {}) == jobs;
      st := QueueStats.Stats(counts, map q | q in oldest :: now - oldest[q]);
    }
  }
}
