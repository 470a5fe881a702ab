/** The sweep that collects jobs whose worker stopped renewing its lease. */
module Rescue {
  import opened Jobs
  import opened Ordering
  import opened JobStore
  import opened Ceiling
  import opened Disposal
  import opened ClaimRound
  import D = MemDriver

  const BATCH := 100
  const ROUNDS := 10

  /** What the sweep decides with: its lease, the clock, the retry policy and the error it records. */
  datatype Sweep = Sweep(leaseFor: Time, now: Time, retryAt: Row -> Time, detail: Row -> Detail)

  function Reclaimed(row: Row, w: Sweep): Row {
    Evolve(row, Renewed(w.now + w.leaseFor))
  }

  function Verdicted(row: Row, w: Sweep): Outcome {
    Settle(row, Failed, w.now, w.retryAt(row), w.detail(row))
  }

  /** A row after the sweep has re-claimed and disposed of it. */
  function Rescued(row: Row, w: Sweep): Row {
    Evolve(Reclaimed(row, w), Ended(Verdicted(Reclaimed(row, w), w), w.now))
  }

  /** No attempt is spent, one error is recorded, and the row dies exactly when its attempts are. */
  lemma RescueFate(row: Row, w: Sweep)
    ensures var r := Rescued(row, w);
      && (r.state.Dead? <==> row.attempt >= row.maxAttempts)
      && (r.state.Retryable? <==> row.attempt < row.maxAttempts)
      && r.attempt == row.attempt && r.leasedUntil.None?
      && r.errors == row.errors + [w.detail(Reclaimed(row, w))]
      && (r.state.Retryable? ==>
            r.scheduledAt == Later(w.retryAt(Reclaimed(row, w)), w.now) && r.finalizedAt == row.finalizedAt)
      && (r.state.Dead? ==> r.scheduledAt == row.scheduledAt && r.finalizedAt == Some(w.now))
      && r == row.(state := r.state, errors := r.errors, scheduledAt := r.scheduledAt,
                   leasedUntil := None, finalizedAt := r.finalizedAt)
  {
  }

  /** Mid-sweep: the first done of ids are disposed of, the next ones up to held are re-claimed. */
  ghost function Midway(s: Store, ids: seq<int>, done: nat, held: nat, w: Sweep): Store
    requires done <= held <= |ids|
  {
    s.(jobs := map id | id in s.jobs ::
      if id in ids[..done] then Rescued(s.jobs[id], w)
      else if id in ids[..held] then Reclaimed(s.jobs[id], w)
      else s.jobs[id])
  }

  ghost function Expired(s: Store, now: Time): (ids: seq<int>)
    ensures forall i | 0 <= i < |ids| :: ids[i] in s.jobs && IsExpired(s.jobs[ids[i]], now)
    ensures Distinct(ids)
    ensures |ids| == |ExpiredKeys(s.jobs, now)|
  {
    var key := ExpiredKeys(s.jobs, now);
    var ids := Sorted(key);
    assert forall i | 0 <= i < |ids| :: ids[i] in key;
    assert forall i, j | 0 <= i < j < |ids| :: Precedes(key, ids[i], ids[j]);
    ids
  }

  lemma NoneYet(s: Store, ids: seq<int>, w: Sweep)
    ensures Midway(s, ids, 0, 0, w) == s
  {
  }

  lemma StillExpired(s: Store, done: nat, w: Sweep)
    requires done <= |Expired(s, w.now)|
    ensures var ids := Expired(s, w.now);
      ExpiredKeys(Midway(s, ids, done, done, w).jobs, w.now) == ExpiredKeys(s.jobs, w.now) - Elems(ids[..done])
  {
  }

  lemma HeldIds(s: Store, done: nat, w: Sweep)
    requires done <= |Expired(s, w.now)|
    ensures var ids := Expired(s, w.now);
      ExpiredIds(Midway(s, ids, done, done, w), BATCH, w.now) == ids[done..Min(done + BATCH, |ids|)]
  {
    hide Midway, ExpiredKeys, Elems, Sorted;
    StillExpired(s, done, w);
    SortedAfterPrefix(ExpiredKeys(s.jobs, w.now), done);
  }

  lemma Parted(ids: seq<int>, done: nat, held: nat, id: int)
    requires Distinct(ids) && done <= held <= |ids|
    ensures id in ids[..held] <==> id in ids[..done] || id in ids[done..held]
    ensures !(id in ids[..done] && id in ids[done..held])
  {
    assert ids[..held] == ids[..done] + ids[done..held];
    assert forall i, j | 0 <= i < done && 0 <= j < held - done :: ids[..done][i] != ids[done..held][j];
  }

  lemma HoldMore(s: Store, ids: seq<int>, done: nat, held: nat, w: Sweep)
    requires Distinct(ids) && done <= held <= |ids|
    ensures EvolveAll(Midway(s, ids, done, done, w).jobs, ids[done..held], Renewed(w.now + w.leaseFor))
         == Midway(s, ids, done, held, w).jobs
  {
    hide Evolve, Rescued;
    forall id | id in s.jobs
      ensures EvolveAll(Midway(s, ids, done, done, w).jobs, ids[done..held], Renewed(w.now + w.leaseFor))[id]
           == Midway(s, ids, done, held, w).jobs[id]
    {
      Parted(ids, done, held, id);
    }
  }

  /** A fetch re-claims the next batch, oldest lease first. */
  lemma FetchHolds(s: Store, done: nat, w: Sweep)
    requires done <= |Expired(s, w.now)|
    ensures var ids := Expired(s, w.now);
      var held := Min(done + BATCH, |ids|);
      var f := FetchExpired(Midway(s, ids, done, done, w), w.leaseFor, BATCH, w.now);
      && f.store == Midway(s, ids, done, held, w)
      && |f.rows| == held - done
      && forall i | 0 <= i < |f.rows| :: f.rows[i] == Reclaimed(s.jobs[ids[done + i]], w)
  {
    hide Expired, Evolve, ExpiredIds, EvolveAll, Rescued, Reclaimed;
    var ids := Expired(s, w.now);
    var held := Min(done + BATCH, |ids|);
    HeldIds(s, done, w);
    HoldMore(s, ids, done, held, w);
    var f := FetchExpired(Midway(s, ids, done, done, w), w.leaseFor, BATCH, w.now);
    forall i | 0 <= i < |f.rows| ensures f.rows[i] == Reclaimed(s.jobs[ids[done + i]], w) {
      var id := ids[done..held][i];
      Parted(ids, done, held, id);
    }
  }

  /** Disposing of the next held row is accepted and moves it on. */
  lemma DisposeMoves(s: Store, done: nat, held: nat, w: Sweep)
    requires WellFormed(s) && done < held <= |Expired(s, w.now)|
    ensures var ids := Expired(s, w.now);
      var row := Reclaimed(s.jobs[ids[done]], w);
      Mark(Midway(s, ids, done, held, w), LeaseOf(row), Verdicted(row, w), w.now)
      == (Midway(s, ids, done + 1, held, w), None)
  {
    hide Expired, Verdicted, Finish;
    var ids := Expired(s, w.now);
    var id := ids[done];
    Parted(ids, done, done + 1, id);
    Parted(ids, done + 1, held, id);
    assert ids[..done + 1] == ids[..done] + [id];
    var t := Midway(s, ids, done, held, w);
    assert t.jobs[id] == Reclaimed(s.jobs[id], w);
    assert t.jobs[id := Rescued(s.jobs[id], w)] == Midway(s, ids, done + 1, held, w).jobs;
  }

  /**
   One sweep, with the clock held still: disposes of exactly the first 1000 expired rows in
   order of lease, each once, or of all of them when there are fewer.
   */
  method RescueOnce(d: D.Driver, w: Sweep) returns (rescued: nat, ghost order: seq<int>)
    requires WellFormed(d.Model())
    modifies d
    ensures order == Take(Expired(old(d.Model()), w.now), BATCH * ROUNDS)
    ensures rescued == |order| == Min(|ExpiredKeys(old(d.Model()).jobs, w.now)|, 1000)
    ensures d.Model() == Midway(old(d.Model()), order, |order|, |order|, w)
  {
    hide Expired, FetchExpired, Mark, Midway;
    ghost var s := d.Model();
    ghost var ids := Expired(s, w.now);
    rescued, order := 0, [];
    NoneYet(s, ids, w);
    var round := 0;
    while round < ROUNDS
      invariant rescued == round * BATCH <= |ids|
      invariant round <= ROUNDS
      invariant order == ids[..rescued]
      invariant d.Model() == Midway(s, ids, rescued, rescued, w)
    {
      FetchHolds(s, rescued, w);
      var rows := d.FetchExpired(w.leaseFor, BATCH, w.now);
      ghost var start := rescued;
      ghost var held := start + |rows|;
      for i := 0 to |rows|
        invariant rescued == start + i
        invariant order == ids[..rescued]
        invariant d.Model() == Midway(s, ids, rescued, held, w)
      {
        DisposeMoves(s, rescued, held, w);
        var _ := Dispose(d, rows[i], Failed, w.now, w.retryAt(rows[i]), w.detail(rows[i]));
        order := order + [ids[rescued]];
        rescued := rescued + 1;
      }
      if |rows| < BATCH {
        break;
      }
      round := round + 1;
    }
    PrefixAlone(s, ids, rescued, w);
  }

  lemma PrefixAlone(s: Store, ids: seq<int>, n: nat, w: Sweep)
    requires n <= |ids|
    ensures Midway(s, ids, n, n, w) == Midway(s, ids[..n], n, n, w)
  {
  }
}
