/**
 What one reading of the queues reports: a depth per queue and state, and how long
 the oldest job each queue could hand out has been due.
 */
module QueueStats {
  import opened Jobs
  import opened Ordering
  import opened JobStore

  datatype Depth = Depth(queue: Name, state: State)

  datatype Stats = Stats(depths: map<Depth, nat>, ages: map<Name, Time>)

  ghost function Holding(jobs: Table, d: Depth): set<int> {
    set id | id in jobs && jobs[id].queue == d.queue && jobs[id].state == d.state
  }

  /** A depth for each counted state a queue holds jobs in, and no other. */
  ghost predicate CountsDepths(depths: map<Depth, nat>, jobs: Table) {
    && (forall d: Depth :: d in depths <==> d.state.Counted() && Holding(jobs, d) != {})
    && (forall d | d in depths :: depths[d] == |Holding(jobs, d)|)
  }

  ghost predicate IsOldest(jobs: Table, queue: Name, now: Time, id: int) {
    && id in jobs && IsDue(jobs[id], queue, now)
    && forall k | k in jobs && IsDue(jobs[k], queue, now) :: jobs[id].scheduledAt <= jobs[k].scheduledAt
  }

  /** since maps each queue with a due job to the earliest due time it holds. */
  ghost predicate FindsOldest(since: map<Name, Time>, jobs: Table, now: Time) {
    && (forall id | id in jobs && IsDue(jobs[id], jobs[id].queue, now) ::
          jobs[id].queue in since && since[jobs[id].queue] <= jobs[id].scheduledAt)
    && (forall q | q in since :: exists id :: IsOldest(jobs, q, now, id) && jobs[id].scheduledAt == since[q])
  }

  ghost predicate Reports(st: Stats, jobs: Table, now: Time) {
    && CountsDepths(st.depths, jobs)
    && exists since: map<Name, Time> ::
         FindsOldest(since, jobs, now) && st.ages == map q | q in since :: now - since[q]
  }

  // ------------------------------------------------- one more row at a time

  lemma HoldingGrows(jobs: Table, id: int, row: Row, d: Depth)
    requires id !in jobs
    ensures Holding(jobs[id := row], d)
         == Holding(jobs, d) + if row.queue == d.queue && row.state == d.state then {id} else {}
  {
  }

  lemma DepthsGrow(depths: map<Depth, nat>, jobs: Table, id: int, row: Row)
    requires CountsDepths(depths, jobs) && id !in jobs
    ensures var d := Depth(row.queue, row.state);
      CountsDepths(if d.state.Counted() then depths[d := 1 + if d in depths then depths[d] else 0] else depths,
                   jobs[id := row])
  {
    var d := Depth(row.queue, row.state);
    forall k: Depth
      ensures k != d ==> Holding(jobs[id := row], k) == Holding(jobs, k)
      ensures k == d ==> Holding(jobs[id := row], k) == Holding(jobs, k) + {id}
    {
      HoldingGrows(jobs, id, row, k);
    }
    assert d.state.Counted() && d !in depths ==> Holding(jobs, d) == {};
  }

  lemma OldestKept(jobs: Table, id: int, row: Row, now: Time, q: Name, k: int)
    requires id !in jobs && IsOldest(jobs, q, now, k)
    requires IsDue(row, q, now) ==> jobs[k].scheduledAt <= row.scheduledAt
    ensures IsOldest(jobs[id := row], q, now, k)
  {
  }

  lemma OldestGrows(since: map<Name, Time>, jobs: Table, now: Time, id: int, row: Row)
    requires FindsOldest(since, jobs, now) && id !in jobs
    ensures FindsOldest(
      if IsDue(row, row.queue, now) && (row.queue in since ==> row.scheduledAt < since[row.queue])
      then since[row.queue := row.scheduledAt] else since, jobs[id := row], now)
  {
    var q := row.queue;
    var more := jobs[id := row];
    var newer := IsDue(row, q, now) && (q in since ==> row.scheduledAt < since[q]);
    var after := if newer then since[q := row.scheduledAt] else since;
    forall k | k in after ensures exists i :: IsOldest(more, k, now, i) && more[i].scheduledAt == after[k] {
      if newer && k == q {
        assert IsOldest(more, q, now, id);
      } else {
        var i :| IsOldest(jobs, k, now, i) && jobs[i].scheduledAt == since[k];
        OldestKept(jobs, id, row, now, k, i);
        assert more[i].scheduledAt == after[k];
      }
    }
  }

  // ------------------------------------------------------ agreement with claims

  lemma FirstDueIsOldest(s: Store, queue: Name, now: Time, id: int)
    requires id in s.jobs && IsDue(s.jobs[id], queue, now)
    ensures var ids := DueIds(s, queue, 1, now); |ids| == 1 && IsOldest(s.jobs, queue, now, ids[0])
  {
    var key := DueKeys(s.jobs, queue, now);
    var ids := Sorted(key);
    assert id in key;
    assert ids != [];
    TailLists(key, ids);
    assert IsLeast(key, ids[0]);
    forall k | k in s.jobs && IsDue(s.jobs[k], queue, now)
      ensures s.jobs[ids[0]].scheduledAt <= s.jobs[k].scheduledAt
    {
      assert k in key;
    }
  }

  lemma DueQueueIsAged(s: Store, since: map<Name, Time>, queue: Name, now: Time)
    requires FindsOldest(since, s.jobs, now)
    ensures DueIds(s, queue, 1, now) != [] ==> queue in since
  {
  }

  /**
   At one clock reading, a queue has an age exactly when claiming one job from it would
   succeed, and the age is how long the job that claim takes has been due.
   */
  lemma AgesAgreeWithClaims(s: Store, st: Stats, queue: Name, leaseFor: Time, now: Time)
    requires Reports(st, s.jobs, now)
    ensures var rows := FetchAvailable(s, queue, leaseFor, 1, now).rows;
      && |rows| == (if queue in st.ages then 1 else 0)
      && (queue in st.ages ==> st.ages[queue] == now - rows[0].scheduledAt)
  {
    hide FetchAvailable, DueIds, CountsDepths;
    var since :| FindsOldest(since, s.jobs, now) && st.ages == map q | q in since :: now - since[q];
    var ids := DueIds(s, queue, 1, now);
    var rows := FetchAvailable(s, queue, leaseFor, 1, now).rows;
    ClaimedRow(s, queue, leaseFor, 1, now);
    DueQueueIsAged(s, since, queue, now);
    if queue in since {
      var id :| IsOldest(s.jobs, queue, now, id) && s.jobs[id].scheduledAt == since[queue];
      FirstDueIsOldest(s, queue, now, id);
      assert rows[0].scheduledAt == s.jobs[ids[0]].scheduledAt;
    }
  }
}
