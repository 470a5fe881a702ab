/**
 How one attempt ends, and what a client keeps track of meanwhile: the claim-to-finalize
 window and the failure decision.
 */
module Disposal {
  import opened Jobs
  import opened JobStore
  import opened Ceiling
  import D = MemDriver
  import I = Inflight

  /** The store still has the row running at the attempt its holder was given. */
  ghost predicate Holds(jobs: Table, row: Row) {
    row.id in jobs && jobs[row.id].state == Running && jobs[row.id].attempt == row.attempt
  }

  function Later(a: Time, b: Time): Time {
    if a < b then b else a
  }

  /**
   What becomes of a running row: completed on success; cancelled when it is hopeless, at any
   attempt; scheduled after the delay with its attempt given back when it is not yet time;
   and on failure dead at the ceiling, else retryable and not before now.
   */
  ghost predicate Fate(was: Row, end: Row, holder: Row, v: Verdict, now: Time, at: Time, detail: Detail) {
    && end == was.(state := end.state, attempt := end.attempt, errors := end.errors,
                   scheduledAt := end.scheduledAt, leasedUntil := None, finalizedAt := end.finalizedAt)
    && match v
       case Succeeded =>
         && end.state == Completed && end.errors == was.errors && end.attempt == was.attempt
         && end.scheduledAt == was.scheduledAt && end.finalizedAt == Some(now)
       case Hopeless =>
         && end.state == Cancelled && end.errors == was.errors + [detail] && end.attempt == was.attempt
         && end.scheduledAt == was.scheduledAt && end.finalizedAt == Some(now)
       case NotYet(delay) =>
         && end.state == Scheduled && end.errors == was.errors && end.scheduledAt == now + delay
         && end.attempt == (if was.attempt > 0 then was.attempt - 1 else 0) && end.finalizedAt == was.finalizedAt
       case Failed =>
         && end.errors == was.errors + [detail] && end.attempt == was.attempt
         && if holder.attempt >= holder.maxAttempts
            then end.state == Dead && end.scheduledAt == was.scheduledAt && end.finalizedAt == Some(now)
            else end.state == Retryable && end.scheduledAt == Later(at, now) && end.finalizedAt == was.finalizedAt
  }

  /** The row met its fate, the others were left alone; a claim no longer held changes nothing. */
  ghost predicate Ends(s: Store, t: Store, row: Row, v: Verdict, now: Time, at: Time, detail: Detail) {
    if !Holds(s.jobs, row) then t == s
    else
      && t.nextID == s.nextID && t.jobs.Keys == s.jobs.Keys
      && Fate(s.jobs[row.id], t.jobs[row.id], row, v, now, at, detail)
      && forall id | id in s.jobs && id != row.id :: t.jobs[id] == s.jobs[id]
  }

  /** The written outcome is the fate the verdict calls for. */
  lemma SettledEnds(s: Store, row: Row, v: Verdict, now: Time, at: Time, detail: Detail)
    ensures var (t, err) := Mark(s, LeaseOf(row), Settle(row, v, now, at, detail), now);
      Ends(s, t, row, v, now, at, detail) && (err.None? <==> Holds(s.jobs, row))
  {
    if Holds(s.jobs, row) {
      SettledFate(s.jobs[row.id], row, v, now, at, detail);
    }
    hide Evolve, Settle, Fate;
  }

  lemma SettledFate(was: Row, row: Row, v: Verdict, now: Time, at: Time, detail: Detail)
    ensures Fate(was, Evolve(was, Ended(Settle(row, v, now, at, detail), now)), row, v, now, at, detail)
  {
  }

  /** Ends an attempt that did not succeed; the write may be refused, which changes nothing. */
  method Dispose(d: D.Driver, row: Row, v: Verdict, now: Time, at: Time, detail: Detail) returns (err: Option<Error>)
    requires !v.Succeeded?
    modifies d
    ensures Ends(old(d.Model()), d.Model(), row, v, now, at, detail) && (err.None? <==> Holds(old(d.jobs), row))
    ensures (d.Model(), err) == Mark(old(d.Model()), LeaseOf(row), Settle(row, v, now, at, detail), now)
  {
    SettledEnds(d.Model(), row, v, now, at, detail);
    hide Ends, Mark;
    var lease := LeaseOf(row);
    if v.NotYet? {
      err := d.Transition(lease, Snooze(now + v.delay), now);
      return;
    }
    if v.Hopeless? {
      err := d.Transition(lease, Cancel(Some(detail)), now);
    } else if row.attempt >= row.maxAttempts {
      err := d.Transition(lease, Die(Some(detail)), now);
    } else {
      var retryAt := at;
      if retryAt < now {
        retryAt := now;
      }
      err := d.Transition(lease, Retry(retryAt, Some(detail)), now);
    }
  }

  // ------------------------------------------------------------- what is tracked when

  datatype Moment = Moment(tracked: I.Tracked, store: Store)

  /** The store is written only while the lease is tracked, before and after the write. */
  ghost predicate Guarded(moments: seq<Moment>, l: Lease) {
    forall i, j | 0 <= i && j == i + 1 && j < |moments| ::
      moments[i].store != moments[j].store ==> I.Tracks(moments[i].tracked, l) && I.Tracks(moments[j].tracked, l)
  }

  /**
   A client's store and in-flight set. log is every state the two have been in together;
   the methods below are the only ones to change either, one at a time.
   */
  class Desk {
    const drv: D.Driver
    const inflight: I.InflightSet
    ghost var log: seq<Moment>

    ghost function Now(): Moment
      reads drv, inflight
    {
      Moment(inflight.attempts, drv.Model())
    }

    ghost predicate Valid()
      reads this, drv, inflight
    {
      log != [] && log[|log| - 1] == Now()
    }

    constructor (drv: D.Driver, inflight: I.InflightSet)
      ensures Valid() && this.drv == drv && this.inflight == inflight
    {
      this.drv, this.inflight := drv, inflight;
      log := [Moment(inflight.attempts, drv.Model())];
    }

    method Track(lease: Lease)
      requires Valid()
      modifies inflight, this`log
      ensures Valid() && log == old(log) + [Now()] && inflight.attempts == I.Add(old(inflight.attempts), lease)
    {
      inflight.AddLease(lease);
      log := log + [Now()];
    }

    method Untrack(lease: Lease)
      requires Valid()
      modifies inflight, this`log
      ensures Valid() && log == old(log) + [Now()] && inflight.attempts == I.Remove(old(inflight.attempts), lease)
    {
      inflight.RemoveLease(lease);
      log := log + [Now()];
    }

    method Claim(queue: Name, leaseFor: Time, limit: int, now: Time) returns (rows: seq<Row>)
      requires Valid()
      modifies drv, this`log
      ensures Valid() && log == old(log) + [Now()]
      ensures Fetched(drv.Model(), rows) == FetchAvailable(old(drv.Model()), queue, leaseFor, limit, now)
    {
      rows := drv.FetchAvailable(queue, leaseFor, limit, now);
      log := log + [Now()];
    }

    /** Records how the attempt went. */
    method Record(row: Row, v: Verdict, now: Time, at: Time, detail: Detail)
      requires Valid()
      modifies drv, this`log
      ensures Valid() && log == old(log) + [Now()]
      ensures drv.Model() == Mark(old(drv.Model()), LeaseOf(row), Settle(row, v, now, at, detail), now).0
    {
      if v.Succeeded? {
        var _ := drv.Transition(LeaseOf(row), Complete, now);
      } else {
        var _ := Dispose(drv, row, v, now, at, detail);
      }
      log := log + [Now()];
    }
  }

  /** Runs one claimed job: tracked from before the handler until its outcome is written. */
  method RunJob(desk: Desk, row: Row, v: Verdict, now: Time, at: Time, detail: Detail)
    requires desk.Valid()
    modifies desk, desk.drv, desk.inflight
    ensures desk.Valid() && old(desk.log) <= desk.log
    ensures Guarded(desk.log[|old(desk.log)| - 1..], LeaseOf(row))
    ensures desk.drv.Model() == Mark(old(desk.drv.Model()), LeaseOf(row), Settle(row, v, now, at, detail), now).0
    ensures Ends(old(desk.drv.Model()), desk.drv.Model(), row, v, now, at, detail)
    ensures desk.inflight.attempts == old(desk.inflight.attempts) - {row.id}
  {
    SettledEnds(desk.drv.Model(), row, v, now, at, detail);
    hide Mark, Settle, Ends;
    var lease := LeaseOf(row);
    desk.Track(lease);
    desk.Record(row, v, now, at, detail);
    desk.Untrack(lease);
  }
}
