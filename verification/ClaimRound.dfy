/**
 Which rows a claim takes, and what one pass of the fetch loop over all configured
 queues claims.
 */
module ClaimRound {
  import opened Jobs
  import opened Ordering
  import opened JobStore
  import I = Inflight
  import W = Disposal

  function Min(a: int, b: int): int {
    if a < b then a else b
  }

  /**
   A claim of at most limit takes exactly the least due rows by (due time, id), in that
   order, one lease and one attempt each, and leaves every other row alone.
   */
  lemma ClaimTakesTheLeast(s: Store, queue: Name, leaseFor: Time, limit: nat, now: Time)
    ensures var key := DueKeys(s.jobs, queue, now);
      var f := FetchAvailable(s, queue, leaseFor, limit, now);
      var ids := DueIds(s, queue, limit, now);
      && Ordered(key, ids) && |ids| == Min(limit, |key|) && |f.rows| == |ids|
      && (forall a, b | a in ids && b in key && b !in ids :: Precedes(key, a, b))
      && (forall id | id in s.jobs && id !in ids :: f.store.jobs[id] == s.jobs[id])
      && (forall i | 0 <= i < |ids| ::
            f.rows[i] == f.store.jobs[ids[i]] && f.rows[i] == Evolve(s.jobs[ids[i]], Claimed(now + leaseFor)))
  {
  }

  // --------------------------------------------------------------- the round

  ghost function Round(s: Store, order: seq<Name>, leaseFor: Time, remaining: nat, now: Time): (f: Fetched)
    ensures |f.rows| <= remaining
    decreases |order|
  {
    if order == [] || remaining == 0 then Fetched(s, [])
    else
      var f := FetchAvailable(s, order[0], leaseFor, remaining, now);
      ClaimedRow(s, order[0], leaseFor, remaining, now);
      var rest := Round(f.store, order[1..], leaseFor, remaining - |f.rows|, now);
      Fetched(rest.store, f.rows + rest.rows)
  }

  /** Every due job of the listed queues, whatever order they are listed in. */
  ghost function AllDue(jobs: Table, queues: set<Name>, now: Time): set<int> {
    set id | id in jobs && jobs[id].queue in queues && IsDue(jobs[id], jobs[id].queue, now)
  }

  ghost function Names(order: seq<Name>): set<Name> {
    set q | q in order
  }

  /** The ids of the rows that came from one queue, in order. */
  ghost function From(rows: seq<Row>, queue: Name): seq<int> {
    if rows == [] then []
    else From(rows[..|rows| - 1], queue)
         + if rows[|rows| - 1].queue == queue then [rows[|rows| - 1].id] else []
  }

  lemma {:induction false} FromConcat(a: seq<Row>, b: seq<Row>, queue: Name)
    ensures From(a + b, queue) == From(a, queue) + From(b, queue)
    decreases |b|
  {
    if b == [] {
      assert a + b == a;
    } else {
      var n := |b| - 1;
      FromConcat(a, b[..n], queue);
      assert (a + b)[..|a| + n] == a + b[..n];
    }
  }

  lemma {:induction false} FromOneQueue(rows: seq<Row>, q: Name, queue: Name)
    requires forall i | 0 <= i < |rows| :: rows[i].queue == q
    ensures q != queue ==> From(rows, queue) == []
    ensures q == queue ==> |From(rows, queue)| == |rows|
    ensures q == queue ==> forall i | 0 <= i < |rows| :: From(rows, queue)[i] == rows[i].id
    decreases |rows|
  {
    if rows != [] {
      FromOneQueue(rows[..|rows| - 1], q, queue);
    }
  }

  // ------------------------------------------- what one fetch leaves behind

  lemma FetchLeavesOtherQueues(s: Store, queue: Name, leaseFor: Time, limit: int, now: Time, q: Name)
    requires q != queue
    ensures DueKeys(FetchAvailable(s, queue, leaseFor, limit, now).store.jobs, q, now) == DueKeys(s.jobs, q, now)
  {
  }

  lemma FetchLeavesTheRest(s: Store, queue: Name, leaseFor: Time, limit: int, now: Time)
    ensures DueKeys(FetchAvailable(s, queue, leaseFor, limit, now).store.jobs, queue, now)
         == DueKeys(s.jobs, queue, now) - Elems(DueIds(s, queue, limit, now))
  {
  }

  lemma FetchKeepsWellFormed(s: Store, queue: Name, leaseFor: Time, limit: int, now: Time)
    requires WellFormed(s)
    ensures WellFormed(FetchAvailable(s, queue, leaseFor, limit, now).store)
  {
  }

  lemma AllDueSplits(jobs: Table, q: Name, queues: set<Name>, now: Time)
    requires q !in queues
    ensures |AllDue(jobs, {q} + queues, now)| == |DueKeys(jobs, q, now)| + |AllDue(jobs, queues, now)|
  {
    var here := set id | id in jobs && IsDue(jobs[id], q, now);
    var there := AllDue(jobs, queues, now);
    assert DueKeys(jobs, q, now).Keys == here;
    assert AllDue(jobs, {q} + queues, now) == here + there;
    assert here !! there;
  }

  lemma FetchLeavesAllDue(s: Store, q: Name, queues: set<Name>, leaseFor: Time, limit: int, now: Time)
    requires q !in queues
    ensures AllDue(FetchAvailable(s, q, leaseFor, limit, now).store.jobs, queues, now) == AllDue(s.jobs, queues, now)
  {
  }

  lemma NothingListed(jobs: Table, now: Time)
    ensures AllDue(jobs, Names([]), now) == {}
  {
  }

  lemma FetchedFrom(s: Store, q: Name, leaseFor: Time, limit: int, now: Time, queue: Name)
    requires WellFormed(s)
    ensures From(FetchAvailable(s, q, leaseFor, limit, now).rows, queue)
         == if q == queue then DueIds(s, q, limit, now) else []
  {
    ClaimedRow(s, q, leaseFor, limit, now);
    FromOneQueue(FetchAvailable(s, q, leaseFor, limit, now).rows, q, queue);
  }

  // ------------------------------------------------------------- theorems

  lemma FetchSize(s: Store, q: Name, leaseFor: Time, limit: nat, now: Time)
    ensures |FetchAvailable(s, q, leaseFor, limit, now).rows| == Min(limit, |DueKeys(s.jobs, q, now)|)
  {
  }

  lemma NamesSplit(order: seq<Name>)
    requires Distinct(order) && order != []
    ensures Names(order) == {order[0]} + Names(order[1..])
    ensures order[0] !in Names(order[1..]) && Distinct(order[1..])
  {
  }

  /** A round claims exactly as many jobs as there is room for and work for, in any order. */
  lemma {:induction false} RoundSize(s: Store, order: seq<Name>, leaseFor: Time, capacity: nat, now: Time)
    requires Distinct(order)
    ensures |Round(s, order, leaseFor, capacity, now).rows| == Min(capacity, |AllDue(s.jobs, Names(order), now)|)
    decreases |order|
  {
    hide FetchAvailable, AllDue, Names, DueKeys;
    if order == [] {
      NothingListed(s.jobs, now);
    } else if capacity > 0 {
      var q, rest := order[0], order[1..];
      var f := FetchAvailable(s, q, leaseFor, capacity, now);
      FetchSize(s, q, leaseFor, capacity, now);
      NamesSplit(order);
      AllDueSplits(s.jobs, q, Names(rest), now);
      FetchLeavesAllDue(s, q, Names(rest), leaseFor, capacity, now);
      RoundSize(f.store, rest, leaseFor, capacity - |f.rows|, now);
    }
  }

  ghost predicate Prefix(a: seq<int>, b: seq<int>) {
    |a| <= |b| && a == b[..|a|]
  }

  /** One queue of the round, seen from queue q. */
  lemma RoundStep(s: Store, order: seq<Name>, leaseFor: Time, capacity: nat, now: Time, q: Name)
    requires WellFormed(s) && order != [] && capacity > 0
    ensures var f := FetchAvailable(s, order[0], leaseFor, capacity, now);
      var ids := DueIds(s, order[0], capacity, now);
      && WellFormed(f.store) && |f.rows| == |ids| <= capacity
      && var rest := Round(f.store, order[1..], leaseFor, capacity - |ids|, now);
         var all := Round(s, order, leaseFor, capacity, now);
         && all.store == rest.store && |all.rows| == |ids| + |rest.rows|
         && (q != order[0] ==> From(all.rows, q) == From(rest.rows, q))
         && (q == order[0] && From(rest.rows, q) == [] ==> From(all.rows, q) == ids)
  {
    hide FetchAvailable, DueIds, Round, From;
    var f := FetchAvailable(s, order[0], leaseFor, capacity, now);
    RoundHead(s, order, leaseFor, capacity, now);
    ClaimedRow(s, order[0], leaseFor, capacity, now);
    FetchKeepsWellFormed(s, order[0], leaseFor, capacity, now);
    FetchedFrom(s, order[0], leaseFor, capacity, now, q);
    FromConcat(f.rows, Round(f.store, order[1..], leaseFor, capacity - |f.rows|, now).rows, q);
  }

  lemma EmptyRound(s: Store, order: seq<Name>, leaseFor: Time, now: Time, q: Name)
    ensures Round(s, order, leaseFor, 0, now).store == s && From(Round(s, order, leaseFor, 0, now).rows, q) == []
    ensures DueKeys(s.jobs, q, now) - Elems([]) == DueKeys(s.jobs, q, now)
  {
  }

  lemma {:induction false} RoundSkipsUnlisted(
    s: Store, order: seq<Name>, leaseFor: Time, capacity: nat, now: Time, q: Name)
    requires WellFormed(s) && q !in order
    ensures var f := Round(s, order, leaseFor, capacity, now);
      From(f.rows, q) == [] && DueKeys(f.store.jobs, q, now) == DueKeys(s.jobs, q, now)
    decreases |order|
  {
    hide FetchAvailable, DueKeys, DueIds;
    if order != [] && capacity > 0 {
      RoundStep(s, order, leaseFor, capacity, now, q);
      var f := FetchAvailable(s, order[0], leaseFor, capacity, now);
      FetchLeavesOtherQueues(s, order[0], leaseFor, capacity, now, q);
      RoundSkipsUnlisted(f.store, order[1..], leaseFor, capacity - |f.rows|, now, q);
    }
  }

  /** One fetch takes a prefix of the due order, all of it unless the limit cut it. */
  lemma FetchTakesPrefix(s: Store, q: Name, limit: nat, now: Time)
    ensures var ids := DueIds(s, q, limit, now);
      var key := DueKeys(s.jobs, q, now);
      Prefix(ids, Sorted(key)) && (|ids| < limit ==> ids == Sorted(key))
  {
  }

  /** From store s, a round that came to f took a prefix of q's due order and left the rest due. */
  ghost predicate TakesPrefix(s: Store, f: Fetched, capacity: nat, now: Time, q: Name) {
    var key := DueKeys(s.jobs, q, now);
    && Prefix(From(f.rows, q), Sorted(key))
    && DueKeys(f.store.jobs, q, now) == key - Elems(From(f.rows, q))
    && (|f.rows| < capacity ==> From(f.rows, q) == Sorted(key))
  }

  lemma FirstQueue(s: Store, order: seq<Name>, leaseFor: Time, capacity: nat, now: Time)
    requires WellFormed(s) && Distinct(order) && order != [] && capacity > 0
    ensures TakesPrefix(s, Round(s, order, leaseFor, capacity, now), capacity, now, order[0])
  {
    hide FetchAvailable, DueKeys, DueIds, Sorted, Round, From, Elems;
    var q := order[0];
    RoundStep(s, order, leaseFor, capacity, now, q);
    var f := FetchAvailable(s, q, leaseFor, capacity, now);
    FetchTakesPrefix(s, q, capacity, now);
    RoundSkipsUnlisted(f.store, order[1..], leaseFor, capacity - |f.rows|, now, q);
    FetchLeavesTheRest(s, q, leaseFor, capacity, now);
  }

  /**
   Each queue contributes a prefix of its due order, and what the round left due is the
   rest of that order; a round that stops short of its capacity leaves nothing due.
   */
  lemma {:induction false} RoundTakesPrefixes(
    s: Store, order: seq<Name>, leaseFor: Time, capacity: nat, now: Time, q: Name)
    requires WellFormed(s) && Distinct(order) && q in order
    ensures TakesPrefix(s, Round(s, order, leaseFor, capacity, now), capacity, now, q)
    decreases |order|
  {
    hide FetchAvailable, DueKeys, DueIds, Sorted, Round, From, Elems;
    if capacity == 0 {
      EmptyRound(s, order, leaseFor, now, q);
    } else if q == order[0] {
      FirstQueue(s, order, leaseFor, capacity, now);
    } else {
      RoundStep(s, order, leaseFor, capacity, now, q);
      var f := FetchAvailable(s, order[0], leaseFor, capacity, now);
      FetchLeavesOtherQueues(s, order[0], leaseFor, capacity, now, q);
      RoundTakesPrefixes(f.store, order[1..], leaseFor, capacity - |f.rows|, now, q);
    }
  }

  /** A round that returns fewer than its capacity leaves no configured queue with a due job. */
  lemma ShortRoundDrains(s: Store, order: seq<Name>, leaseFor: Time, capacity: nat, now: Time, q: Name, id: int)
    requires WellFormed(s) && Distinct(order) && q in order
    requires |Round(s, order, leaseFor, capacity, now).rows| < capacity
    requires id in Round(s, order, leaseFor, capacity, now).store.jobs
    ensures !IsDue(Round(s, order, leaseFor, capacity, now).store.jobs[id], q, now)
  {
    hide Round;
    RoundTakesPrefixes(s, order, leaseFor, capacity, now, q);
    var key := DueKeys(s.jobs, q, now);
    assert Lists(key, Sorted(key));
    assert id in key ==> id in Sorted(key);
    assert id !in DueKeys(Round(s, order, leaseFor, capacity, now).store.jobs, q, now);
  }

  // ------------------------------------------------------------- in place

  /** One more queue at the end of the round. */
  lemma {:induction false} RoundSnoc(s: Store, order: seq<Name>, q: Name, leaseFor: Time, capacity: nat, now: Time)
    ensures var f := Round(s, order, leaseFor, capacity, now);
      Round(s, order + [q], leaseFor, capacity, now)
      == if |f.rows| == capacity then f
         else var g := FetchAvailable(f.store, q, leaseFor, capacity - |f.rows|, now);
              Fetched(g.store, f.rows + g.rows)
    decreases |order|
  {
    hide FetchAvailable, Round;
    var more := order + [q];
    NoRound(s, leaseFor, capacity, now);
    if capacity == 0 {
      RoundHead(s, order, leaseFor, capacity, now);
      RoundHead(s, more, leaseFor, capacity, now);
    } else if order == [] {
      var g := FetchAvailable(s, q, leaseFor, capacity, now);
      RoundHead(s, more, leaseFor, capacity, now);
      assert more[1..] == [];
      NoRound(g.store, leaseFor, capacity - |g.rows|, now);
    } else {
      RoundHead(s, order, leaseFor, capacity, now);
      RoundHead(s, more, leaseFor, capacity, now);
      var f := FetchAvailable(s, order[0], leaseFor, capacity, now);
      assert more[1..] == order[1..] + [q];
      RoundSnoc(f.store, order[1..], q, leaseFor, capacity - |f.rows|, now);
      var rest := Round(f.store, order[1..], leaseFor, capacity - |f.rows|, now);
      var g := FetchAvailable(rest.store, q, leaseFor, capacity - |f.rows| - |rest.rows|, now);
      assert f.rows + (rest.rows + g.rows) == (f.rows + rest.rows) + g.rows;
    }
  }

  lemma NoRound(s: Store, leaseFor: Time, capacity: nat, now: Time)
    ensures Round(s, [], leaseFor, capacity, now) == Fetched(s, [])
  {
  }

  lemma RoundHead(s: Store, order: seq<Name>, leaseFor: Time, capacity: nat, now: Time)
    ensures capacity == 0 ==> Round(s, order, leaseFor, capacity, now) == Fetched(s, [])
    ensures order != [] && capacity > 0 ==>
      var f := FetchAvailable(s, order[0], leaseFor, capacity, now);
      && |f.rows| <= capacity
      && var rest := Round(f.store, order[1..], leaseFor, capacity - |f.rows|, now);
         Round(s, order, leaseFor, capacity, now) == Fetched(rest.store, f.rows + rest.rows)
  {
    hide FetchAvailable;
    if order != [] {
      ClaimedRow(s, order[0], leaseFor, capacity, now);
    }
  }

  /** A round that filled up early would have got no more from the queues behind. */
  lemma {:induction false} FullRound(s: Store, order: seq<Name>, k: nat, leaseFor: Time, capacity: nat, now: Time)
    requires k <= |order|
    requires k < |order| ==> |Round(s, order[..k], leaseFor, capacity, now).rows| == capacity
    ensures Round(s, order[..k], leaseFor, capacity, now) == Round(s, order, leaseFor, capacity, now)
    decreases |order| - k
  {
    hide Round;
    if k < |order| {
      RoundSnoc(s, order[..k], order[k], leaseFor, capacity, now);
      assert order[..k] + [order[k]] == order[..k + 1];
      FullRound(s, order, k + 1, leaseFor, capacity, now);
    } else {
      assert order[..k] == order;
    }
  }

  /** Every job claimed since start is tracked under its claim. */
  ghost predicate Covered(start: Store, m: W.Moment) {
    forall id | id in start.jobs && id in m.store.jobs && m.store.jobs[id] != start.jobs[id] ::
      I.Tracks(m.tracked, Lease(id, m.store.jobs[id].attempt))
  }

  /** Whatever was claimed is tracked before the store is asked for more. */
  ghost predicate TracksFirst(start: Store, moments: seq<W.Moment>) {
    forall i, j | 0 <= i && j == i + 1 && j < |moments| ::
      moments[i].store != moments[j].store ==> Covered(start, moments[i])
  }

  lemma TracksFirstGrows(start: Store, moments: seq<W.Moment>, m: W.Moment)
    requires moments != [] && TracksFirst(start, moments)
    requires moments[|moments| - 1].store == m.store || Covered(start, moments[|moments| - 1])
    ensures TracksFirst(start, moments + [m])
  {
  }

  /** From start to s, rows only went from waiting to running, and the ids are the same. */
  ghost predicate OnlyClaims(start: Store, s: Store) {
    && WellFormed(start) && WellFormed(s) && start.jobs.Keys == s.jobs.Keys
    && forall id | id in s.jobs && s.jobs[id] != start.jobs[id] :: s.jobs[id].state.Running?
  }

  lemma ClaimCovers(start: Store, s: Store, queue: Name, leaseFor: Time, limit: int, now: Time, tracked: I.Tracked)
    requires OnlyClaims(start, s) && Covered(start, W.Moment(tracked, s))
    ensures var f := FetchAvailable(s, queue, leaseFor, limit, now);
      OnlyClaims(start, f.store) && Covered(start, W.Moment(I.AddAll(tracked, f.rows), f.store))
  {
    hide DueIds;
    var f := FetchAvailable(s, queue, leaseFor, limit, now);
    var ids := DueIds(s, queue, limit, now);
    ClaimedIds(s, queue, leaseFor, limit, now);
    FetchKeepsWellFormed(s, queue, leaseFor, limit, now);
    hide FetchAvailable;
    forall id | id in start.jobs && f.store.jobs[id] != start.jobs[id]
      ensures I.Tracks(I.AddAll(tracked, f.rows), Lease(id, f.store.jobs[id].attempt))
    {
      I.AddAllTracks(tracked, f.rows, id);
      if id in ids {
        var i :| 0 <= i < |ids| && ids[i] == id;
        assert f.rows[i].id == id;
      }
    }
  }

  /** What a claim gave out and what it left. */
  lemma ClaimedIds(s: Store, queue: Name, leaseFor: Time, limit: int, now: Time)
    requires WellFormed(s)
    ensures var f := FetchAvailable(s, queue, leaseFor, limit, now);
      var ids := DueIds(s, queue, limit, now);
      && |f.rows| == |ids| && f.store.jobs.Keys == s.jobs.Keys
      && (forall k | 0 <= k < |ids| :: f.rows[k].id == ids[k] && f.rows[k] == f.store.jobs[ids[k]])
      && (forall id | id in s.jobs && id in ids :: !s.jobs[id].state.Running? && f.store.jobs[id].state.Running?)
      && (forall id | id in s.jobs && id !in ids :: f.store.jobs[id] == s.jobs[id])
  {
    hide DueIds;
    var ids := DueIds(s, queue, limit, now);
    forall k | 0 <= k < |ids| ensures s.jobs[ids[k]].id == ids[k] {}
  }

  /** Adds each row of one claim to the in-flight set. */
  method TrackRows(desk: W.Desk, rows: seq<Row>, ghost start: Store, ghost n: nat)
    requires desk.Valid() && n < |desk.log| && TracksFirst(start, desk.log[n..])
    modifies desk`log, desk.inflight
    ensures desk.Valid() && old(desk.log) <= desk.log && TracksFirst(start, desk.log[n..])
    ensures desk.inflight.attempts == I.AddAll(old(desk.inflight.attempts), rows)
  {
    hide TracksFirst;
    for i := 0 to |rows|
      invariant desk.Valid() && old(desk.log) <= desk.log && TracksFirst(start, desk.log[n..])
      invariant desk.inflight.attempts == I.AddAll(old(desk.inflight.attempts), rows[..i])
    {
      ghost var past := desk.log;
      desk.Track(LeaseOf(rows[i]));
      TracksFirstGrows(start, past[n..], desk.log[|past|]);
      assert desk.log[n..] == past[n..] + [desk.log[|past|]];
      assert rows[..i + 1][..i] == rows[..i];
    }
    assert rows[..|rows|] == rows;
  }

  /** One queue of the round: claim, then track. */
  method Visit(desk: W.Desk, q: Name, leaseFor: Time, limit: nat, now: Time, ghost start: Store, ghost n: nat)
    returns (rows: seq<Row>)
    requires desk.Valid() && n < |desk.log| && TracksFirst(start, desk.log[n..])
    requires OnlyClaims(start, desk.drv.Model()) && Covered(start, desk.Now())
    modifies desk`log, desk.drv, desk.inflight
    ensures Fetched(desk.drv.Model(), rows) == FetchAvailable(old(desk.drv.Model()), q, leaseFor, limit, now)
    ensures desk.inflight.attempts == I.AddAll(old(desk.inflight.attempts), rows)
    ensures desk.Valid() && old(desk.log) <= desk.log && TracksFirst(start, desk.log[n..])
    ensures OnlyClaims(start, desk.drv.Model()) && Covered(start, desk.Now())
  {
    hide FetchAvailable, TracksFirst, Covered, OnlyClaims;
    ClaimCovers(start, desk.drv.Model(), q, leaseFor, limit, now, desk.inflight.attempts);
    ghost var past := desk.log;
    rows := desk.Claim(q, leaseFor, limit, now);
    TracksFirstGrows(start, past[n..], desk.log[|past|]);
    assert desk.log[n..] == past[n..] + [desk.log[|past|]];
    TrackRows(desk, rows, start, n);
  }

  /** What may end a round early: a claim that fails, or a stop seen after a queue. */
  datatype Weather = Weather(fails: nat -> bool, stops: nat -> bool)

  predicate FailsAt(w: Weather, i: nat) {
    w.fails(i)
  }

  predicate StopsAt(w: Weather, i: nat) {
    w.stops(i)
  }

  /**
   claimRound over the in-memory driver: the round over the queues it came to, all of them
   unless it filled up, a claim failed or a stop was seen. Whatever was claimed is tracked
   before the next claim.
   */
  method RunRound(desk: W.Desk, order: seq<Name>, leaseFor: Time, capacity: nat, now: Time, w: Weather)
    returns (claimed: seq<Row>, ghost visited: nat)
    requires desk.Valid() && WellFormed(desk.drv.Model())
    modifies desk`log, desk.drv, desk.inflight
    ensures visited <= |order|
    ensures Fetched(desk.drv.Model(), claimed)
         == Round(old(desk.drv.Model()), order[..visited], leaseFor, capacity, now)
    ensures visited < |order| ==>
      |claimed| == capacity || FailsAt(w, visited) || (visited > 0 && StopsAt(w, visited - 1))
    ensures desk.inflight.attempts == I.AddAll(old(desk.inflight.attempts), claimed)
    ensures desk.Valid() && old(desk.log) <= desk.log
    ensures TracksFirst(old(desk.drv.Model()), desk.log[|old(desk.log)| - 1..])
    ensures Covered(old(desk.drv.Model()), desk.Now())
  {
    hide FetchAvailable, Round, TracksFirst, Covered, OnlyClaims;
    claimed := [];
    var i, remaining: nat := 0, capacity;
    ghost var start, n := desk.drv.Model(), |desk.log| - 1;
    RoundStarts(start, order, leaseFor, capacity, now, desk.log, desk.inflight.attempts);
    while i < |order| && remaining > 0
      invariant i <= |order| && remaining + |claimed| == capacity
      invariant Fetched(desk.drv.Model(), claimed) == Round(start, order[..i], leaseFor, capacity, now)
      invariant desk.inflight.attempts == I.AddAll(old(desk.inflight.attempts), claimed)
      invariant desk.Valid() && old(desk.log) <= desk.log && TracksFirst(start, desk.log[n..])
      invariant OnlyClaims(start, desk.drv.Model()) && Covered(start, desk.Now())
    {
      if FailsAt(w, i) {
        break;
      }
      RoundSnoc(start, order[..i], order[i], leaseFor, capacity, now);
      assert order[..i] + [order[i]] == order[..i + 1];
      ClaimedRow(desk.drv.Model(), order[i], leaseFor, remaining, now);
      var rows := Visit(desk, order[i], leaseFor, remaining, now, start, n);
      I.AddAllConcat(old(desk.inflight.attempts), claimed, rows);
      claimed := claimed + rows;
      remaining := remaining - |rows|;
      i := i + 1;
      if StopsAt(w, i - 1) {
        break;
      }
    }
    visited := i;
  }

  lemma RoundStarts(
    start: Store, order: seq<Name>, leaseFor: Time, capacity: nat, now: Time, log: seq<W.Moment>, tracked: I.Tracked)
    requires WellFormed(start) && log != []
    ensures Fetched(start, []) == Round(start, order[..0], leaseFor, capacity, now)
    ensures OnlyClaims(start, start) && Covered(start, W.Moment(tracked, start)) && TracksFirst(start, log[|log| - 1..])
    ensures tracked == I.AddAll(tracked, [])
  {
  }
}
