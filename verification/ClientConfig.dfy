/** The intervals a client runs on, corrected one after another from what it was given. */
module ClientConfig {
  import opened Jobs
  import S = JobStore
  import I = Inflight
  import D = MemDriver

  const MIN_LEASE := 1_000_000
  const DEFAULT_LEASE := 60_000_000_000
  const DEFAULT_POLL := 1_000_000_000
  const DEFAULT_CONCURRENCY := 10
  const BEATS_PER_LEASE := 3

  /** A field at or below zero is unset. */
  datatype Config = Config(poll: Time, lease: Time, heartbeat: Time, rescue: Time, concurrency: int)

  class Client {
    var poll: Time
    var lease: Time
    var heartbeat: Time
    var rescue: Time
    var concurrency: int

    /**
     Every interval ends up usable: the heartbeat strictly inside the lease, and three to the
     lease unless the caller chose one that fits. A usable choice is kept as it is.
     */
    constructor (cfg: Config)
      ensures 0 < heartbeat < lease && rescue > 0 && poll > 0 && concurrency > 0
      ensures lease == if cfg.lease < 1_000_000 then 60_000_000_000 else cfg.lease
      ensures 0 < cfg.heartbeat < lease ==> heartbeat == cfg.heartbeat
      ensures !(0 < cfg.heartbeat < lease) ==> 3 * heartbeat <= lease < 3 * (heartbeat + 1)
      ensures rescue == if cfg.rescue > 0 then cfg.rescue else lease
      ensures poll == if cfg.poll > 0 then cfg.poll else 1_000_000_000
      ensures concurrency == if cfg.concurrency > 0 then cfg.concurrency else 10
    {
      poll, lease, heartbeat, rescue, concurrency := cfg.poll, cfg.lease, cfg.heartbeat, cfg.rescue, cfg.concurrency;
      new;
      if poll <= 0 {
        poll := DEFAULT_POLL;
      }
      if lease < MIN_LEASE {
        lease := DEFAULT_LEASE;
      }
      if heartbeat >= lease {
        heartbeat := 0;
      }
      if heartbeat <= 0 {
        heartbeat := lease / BEATS_PER_LEASE;
      }
      if rescue <= 0 {
        rescue := lease;
      }
      if concurrency <= 0 {
        concurrency := DEFAULT_CONCURRENCY;
      }
    }

    /** One beat that lands: every tracked claim the store still shows running gets a full lease, nothing else moves. */
    method ExtendLeases(d: D.Driver, inflight: I.InflightSet, now: Time)
      requires S.WellFormed(d.Model())
      modifies d
      ensures d.nextID == old(d.nextID) && d.jobs.Keys == old(d.jobs.Keys)
      ensures forall id | id in d.jobs ::
        d.jobs[id] == Beaten(old(d.jobs[id]), inflight.attempts, now + lease)
    {
      var leases := inflight.Snapshot();
      if |leases| == 0 {
        assert inflight.attempts == map[];
        return;
      }
      d.ExtendLeases(leases, lease, now);
      forall id | id in d.jobs
        ensures d.jobs[id] == Beaten(old(d.jobs[id]), inflight.attempts, now + lease)
      {
        var row := old(d.jobs[id]);
        assert Lease(id, row.attempt) in leases <==> I.Tracks(inflight.attempts, Lease(id, row.attempt));
      }
    }
  }

  function Beaten(row: Row, tracked: I.Tracked, until: Time): Row {
    if row.state.Running? && row.id in tracked && tracked[row.id] == row.attempt
    then row.(leasedUntil := Some(until)) else row
  }
}
