/**
 The leases a client is executing under, keyed by job id.
 */
module Inflight {
  import opened Jobs
  import opened Ordering

  type Tracked = map<int, int>

  function Add(t: Tracked, lease: Lease): Tracked {
    t[lease.id := lease.attempt]
  }

  /** Guarded by attempt, so a finishing job cannot untrack a later claim of its row. */
  function Remove(t: Tracked, lease: Lease): Tracked {
    if lease.id in t && t[lease.id] == lease.attempt then t - {lease.id} else t
  }

  function AddAll(t: Tracked, rows: seq<Row>): Tracked
    decreases |rows|
  {
    if rows == [] then t else Add(AddAll(t, rows[..|rows| - 1]), LeaseOf(rows[|rows| - 1]))
  }

  lemma {:induction false} AddAllConcat(t: Tracked, a: seq<Row>, b: seq<Row>)
    ensures AddAll(t, a + b) == AddAll(AddAll(t, a), b)
    decreases |b|
  {
    if b == [] {
      assert a + b == a;
    } else {
      AddAllConcat(t, a, b[..|b| - 1]);
      assert (a + b)[..|a| + |b| - 1] == a + b[..|b| - 1];
    }
  }

  /** Adding rows leaves the other ids as they were, and tracks each row under its attempt. */
  lemma {:induction false} AddAllTracks(t: Tracked, rows: seq<Row>, id: int)
    ensures (forall i | 0 <= i < |rows| :: rows[i].id != id) ==>
      (id in AddAll(t, rows) <==> id in t) && (id in t ==> AddAll(t, rows)[id] == t[id])
    ensures forall a | (forall i | 0 <= i < |rows| && rows[i].id == id :: rows[i].attempt == a)
                       && (exists i | 0 <= i < |rows| :: rows[i].id == id) :: Tracks(AddAll(t, rows), Lease(id, a))
    decreases |rows|
  {
    if rows != [] {
      AddAllTracks(t, rows[..|rows| - 1], id);
    }
  }

  ghost predicate Tracks(t: Tracked, lease: Lease) {
    lease.id in t && t[lease.id] == lease.attempt
  }

  class InflightSet {
    var attempts: Tracked

    constructor ()
      ensures attempts == map[]
    {
      attempts := map[];
    }

    method AddLease(lease: Lease)
      modifies this
      ensures attempts == Add(old(attempts), lease)
    {
      attempts := attempts[lease.id := lease.attempt];
    }

    method RemoveLease(lease: Lease)
      modifies this
      ensures attempts == Remove(old(attempts), lease)
    {
      if lease.id in attempts && attempts[lease.id] == lease.attempt {
        attempts := attempts - {lease.id};
      }
    }

    /** The held leases in ascending id order, each exactly once. */
    method Snapshot() returns (leases: seq<Lease>)
      ensures forall lease :: lease in leases <==> Tracks(attempts, lease)
      ensures |leases| == |attempts|
      ensures forall i, j | 0 <= i < j < |leases| :: leases[i].id < leases[j].id
    {
      var key := map id | id in attempts :: 0;
      var ids := SortIds(key);
      assert key.Keys == attempts.Keys;
      leases := [];
      for k := 0 to |ids|
        invariant |leases| == k
        invariant forall i | 0 <= i < k :: ids[i] in attempts && leases[i] == Lease(ids[i], attempts[ids[i]])
      {
        assert ids[k] in key;
        leases := leases + [Lease(ids[k], attempts[ids[k]])];
      }
      forall lease ensures lease in leases <==> Tracks(attempts, lease) {
        if Tracks(attempts, lease) {
          assert lease.id in key;
          var i :| 0 <= i < |ids| && ids[i] == lease.id;
          assert leases[i] == lease;
        }
      }
      forall i, j | 0 <= i < j < |leases| ensures leases[i].id < leases[j].id {
        assert Precedes(key, ids[i], ids[j]);
      }
    }
  }
}
