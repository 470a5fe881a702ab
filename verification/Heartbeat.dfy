/**
 Heartbeats, tracking and the lease sweep over one store: why a job this pool is still
 running is never handed to someone else.

 A beat is two steps, a snapshot of the tracked leases and a write that lands later or
 not at all. Between any two steps the rest of the fleet may insert, claim, finish,
 rescue and renew; it only finishes or renews claims it made or rescued itself.
 */
module Heartbeat {
  import opened Jobs
  import opened JobStore
  import opened Inflight

  /** A snapshot on its way to the store. */
  datatype Beat = Beat(at: Time, leases: seq<Lease>)

  /**
   held: claims the pool runs with no outcome recorded.
   leaving: claims it is done with whose deferred remove has not run.
   others: leases a claim or a sweep gave to someone who may still act on them.
   covered: when the snapshot of the last beat to land was taken.
   */
  datatype Fleet = Fleet(
    store: Store,
    now: Time,
    held: set<Lease>,
    leaving: set<Lease>,
    others: set<Lease>,
    tracked: Tracked,
    covered: Time,
    beat: Option<Beat>)

  datatype Step =
    | Tick(t: Time)
    | Insert(p: InsertParams)
    | InsertBatch(batch: seq<InsertParams>)
    | Withdraw(id: int)
    | Redrive(id: int)
    | Claim(queue: Name, limit: int)
    | Retrack(lease: Lease)
    | Record(lease: Lease, outcome: Outcome)
    | GiveUp(lease: Lease)
    | Untrack(lease: Lease)
    | Snapshot(leases: seq<Lease>)
    | Land
    | Miss
    | Sweep(leaseFor: Time, limit: int)
    | OtherClaim(queue: Name, leaseFor: Time, limit: int)
    | OtherRecord(lease: Lease, outcome: Outcome)
    | OtherExtend(leases: seq<Lease>, leaseFor: Time)
    | OtherDone(lease: Lease)

  /** The call a step makes on the store, if any. */
  function CallOf(f: Fleet, step: Step, lease: Time): Option<Op> {
    match step
    case Insert(p) => Some(InsertOp(p))
    case InsertBatch(batch) => Some(InsertManyOp(batch))
    case Withdraw(id) => Some(CancelOp(id))
    case Redrive(id) => Some(RedriveOp(id))
    case Claim(queue, limit) => Some(FetchAvailableOp(queue, lease, limit))
    case Record(l, outcome) => Some(MarkOp(l, outcome))
    case Land => if f.beat.Some? then Some(ExtendLeasesOp(f.beat.value.leases, lease)) else None
    case Sweep(leaseFor, limit) => Some(FetchExpiredOp(leaseFor, limit))
    case OtherClaim(queue, leaseFor, limit) => Some(FetchAvailableOp(queue, leaseFor, limit))
    case OtherRecord(l, outcome) => Some(MarkOp(l, outcome))
    case OtherExtend(leases, leaseFor) => Some(ExtendLeasesOp(leases, leaseFor))
    case _ => None
  }

  ghost function LeasesOf(rows: seq<Row>): set<Lease> {
    set r | r in rows :: LeaseOf(r)
  }

  ghost predicate Lists(leases: seq<Lease>, t: Tracked) {
    forall l: Lease :: l in leases <==> Tracks(t, l)
  }

  /** Which steps may come next, time and the numbers claims hand out left aside. */
  ghost predicate Orderly(f: Fleet, step: Step) {
    match step
    case Tick(t) => f.now <= t
    case Retrack(l) => l in f.held
    case Record(l, _) => l in f.held
    case GiveUp(l) => l in f.held
    case Untrack(l) => l in f.leaving
    case Snapshot(leases) => f.beat.None? && Lists(leases, f.tracked)
    case Land => f.beat.Some?
    case Miss => f.beat.Some?
    case OtherRecord(l, _) => l in f.others
    case OtherExtend(leases, _) => forall i | 0 <= i < |leases| :: leases[i] in f.others
    case _ => true
  }

  /** The pool claims no lease that it has still to untrack or that another client may act on. */
  ghost predicate Untangled(f: Fleet, step: Step, lease: Time) {
    step.Claim? ==>
      var rows := FetchAvailable(f.store, step.queue, lease, step.limit, f.now).rows;
      forall i | 0 <= i < |rows| :: LeaseOf(rows[i]) !in f.leaving && LeaseOf(rows[i]) !in f.others
  }

  /** Time passes only while the last beat to land was snapped less than one lease ago. */
  ghost predicate Timely(f: Fleet, step: Step, lease: Time) {
    step.Tick? ==> step.t < f.covered + lease
  }

  ghost predicate Enabled(f: Fleet, step: Step, lease: Time) {
    Orderly(f, step) && Untangled(f, step, lease) && Timely(f, step, lease)
  }

  ghost function StoreAfter(f: Fleet, step: Step, lease: Time): Store {
    var op := CallOf(f, step, lease);
    if op.Some? then Apply(f.store, op.value, f.now) else f.store
  }

  ghost function After(f: Fleet, step: Step, lease: Time): Fleet {
    var g := f.(store := StoreAfter(f, step, lease));
    match step
    case Tick(t) => g.(now := t)
    case Claim(queue, limit) =>
      var rows := FetchAvailable(f.store, queue, lease, limit, f.now).rows;
      g.(held := f.held + LeasesOf(rows), tracked := AddAll(f.tracked, rows))
    case Retrack(l) => g.(tracked := Add(f.tracked, l))
    case Record(l, _) =>
      if Refusal(f.store, l).None? then g.(held := f.held - {l}, leaving := f.leaving + {l}) else g
    case GiveUp(l) => g.(held := f.held - {l}, leaving := f.leaving + {l})
    case Untrack(l) => g.(leaving := f.leaving - {l}, tracked := Remove(f.tracked, l))
    case Snapshot(leases) => g.(beat := Some(Beat(f.now, leases)))
    case Land => if f.beat.Some? then g.(covered := f.beat.value.at, beat := None) else g
    case Miss => g.(beat := None)
    case Sweep(leaseFor, limit) =>
      g.(others := f.others + LeasesOf(FetchExpired(f.store, leaseFor, limit, f.now).rows))
    case OtherClaim(queue, leaseFor, limit) =>
      g.(others := f.others + LeasesOf(FetchAvailable(f.store, queue, leaseFor, limit, f.now).rows))
    case OtherDone(l) => g.(others := f.others - {l})
    case _ => g
  }

  // -------------------------------------------------------------- invariant

  /** The row is running under exactly this lease, which outlives the covered span. */
  ghost predicate Held(f: Fleet, l: Lease, lease: Time) {
    && l.id in f.store.jobs
    && var row := f.store.jobs[l.id];
       && row.state.Running? && row.attempt == l.attempt
       && row.leasedUntil.Some? && row.leasedUntil.value >= f.covered + lease
       && (f.beat.Some? && l !in f.beat.value.leases ==> row.leasedUntil.value >= f.beat.value.at + lease)
  }

  ghost predicate Inv(f: Fleet, lease: Time) {
    && WellFormed(f.store)
    && f.covered <= f.now < f.covered + lease
    && (f.beat.Some? ==> f.covered <= f.beat.value.at <= f.now)
    && (forall l | l in f.held :: Held(f, l, lease) && Tracks(f.tracked, l))
    && f.held !! f.leaving && f.held !! f.others
  }

  // ------------------------------------------------------ what a call leaves

  /** A call other than one's own leaves a held row alone. */
  ghost predicate Spares(f: Fleet, op: Op) {
    forall l | l in f.held && l.id in f.store.jobs :: EventFor(f.store, op, f.now, l.id).Untouched?
  }

  lemma SparedRow(f: Fleet, op: Op, l: Lease)
    requires WellFormed(f.store) && Spares(f, op) && l in f.held && l.id in f.store.jobs
    ensures l.id in Apply(f.store, op, f.now).jobs && Apply(f.store, op, f.now).jobs[l.id] == f.store.jobs[l.id]
  {
    ApplyIsRowwise(f.store, op, f.now);
  }

  lemma OthersSpareHeld(f: Fleet, step: Step, lease: Time)
    requires Inv(f, lease) && Orderly(f, step)
    requires !step.Record? && !step.Land? && CallOf(f, step, lease).Some?
    ensures Spares(f, CallOf(f, step, lease).value)
  {
  }

  lemma SparingKeeps(f: Fleet, step: Step, lease: Time)
    requires Inv(f, lease) && CallOf(f, step, lease).Some?
    requires Spares(f, CallOf(f, step, lease).value)
    ensures Inv(f.(store := StoreAfter(f, step, lease)), lease)
  {
    var op := CallOf(f, step, lease).value;
    ApplyIsRowwise(f.store, op, f.now);
    var g := f.(store := StoreAfter(f, step, lease));
    forall l | l in g.held ensures Held(g, l, lease) {
      assert Held(f, l, lease);
      SparedRow(f, op, l);
    }
  }

  // ------------------------------------------------------------ step by step

  /** A claimed row was waiting; it comes back running, one attempt on, freshly leased. */
  lemma ClaimedFacts(s: Store, queue: Name, leaseFor: Time, limit: int, now: Time, r: Row)
    requires WellFormed(s) && r in FetchAvailable(s, queue, leaseFor, limit, now).rows
    ensures r.id in s.jobs && s.jobs[r.id].state.Waiting()
    ensures r.id in FetchAvailable(s, queue, leaseFor, limit, now).store.jobs
    ensures r == FetchAvailable(s, queue, leaseFor, limit, now).store.jobs[r.id]
    ensures r.state.Running? && r.attempt == s.jobs[r.id].attempt + 1 && r.leasedUntil == Some(now + leaseFor)
  {
    hide DueIds;
    ClaimedRow(s, queue, leaseFor, limit, now);
    var ids := DueIds(s, queue, limit, now);
    var i :| 0 <= i < |ids| && FetchAvailable(s, queue, leaseFor, limit, now).rows[i] == r;
    assert ids[i] in s.jobs && s.jobs[ids[i]].id == ids[i];
    assert r == Evolve(s.jobs[ids[i]], Claimed(now + leaseFor)) && r.id == ids[i] && r.id in ids;
  }

  lemma SweptFacts(s: Store, leaseFor: Time, limit: int, now: Time, r: Row)
    requires WellFormed(s) && r in FetchExpired(s, leaseFor, limit, now).rows
    ensures r.id in s.jobs && IsExpired(s.jobs[r.id], now)
    ensures r.id in FetchExpired(s, leaseFor, limit, now).store.jobs
    ensures r == FetchExpired(s, leaseFor, limit, now).store.jobs[r.id]
    ensures r.attempt == s.jobs[r.id].attempt
  {
  }

  lemma ClaimTracks(f: Fleet, queue: Name, limit: int, lease: Time, l: Lease)
    requires Inv(f, lease)
    requires var rows := FetchAvailable(f.store, queue, lease, limit, f.now).rows; l in f.held + LeasesOf(rows)
    ensures Tracks(AddAll(f.tracked, FetchAvailable(f.store, queue, lease, limit, f.now).rows), l)
  {
    hide FetchAvailable;
    var rows := FetchAvailable(f.store, queue, lease, limit, f.now).rows;
    AddAllTracks(f.tracked, rows, l.id);
    forall i | 0 <= i < |rows|
      ensures rows[i].id in f.store.jobs && f.store.jobs[rows[i].id].state.Waiting()
      ensures rows[i].attempt == f.store.jobs[rows[i].id].attempt + 1
    {
      ClaimedFacts(f.store, queue, lease, limit, f.now, rows[i]);
    }
    if l in f.held {
      assert Held(f, l, lease);
    } else {
      var r :| r in rows && LeaseOf(r) == l;
      assert forall i | 0 <= i < |rows| && rows[i].id == l.id :: rows[i].attempt == l.attempt;
    }
  }

  /** Every claim held after a fetch is an old one left alone or a new one freshly leased. */
  lemma ClaimHolding(f: Fleet, step: Step, lease: Time, l: Lease)
    requires Inv(f, lease) && step.Claim? && Untangled(f, step, lease) && l in After(f, step, lease).held
    ensures var g := After(f, step, lease);
      Held(g, l, lease) && Tracks(g.tracked, l) && l !in g.leaving && l !in g.others
  {
    OthersSpareHeld(f, step, lease);
    hide FetchAvailable, Spares;
    var fetched := FetchAvailable(f.store, step.queue, lease, step.limit, f.now);
    ClaimTracks(f, step.queue, step.limit, lease, l);
    if l in f.held {
      assert Held(f, l, lease);
      SparedRow(f, CallOf(f, step, lease).value, l);
    } else {
      var i :| 0 <= i < |fetched.rows| && LeaseOf(fetched.rows[i]) == l;
      ClaimedFacts(f.store, step.queue, lease, step.limit, f.now, fetched.rows[i]);
    }
  }

  lemma ClaimKeeps(f: Fleet, step: Step, lease: Time)
    requires Inv(f, lease) && step.Claim? && Untangled(f, step, lease)
    ensures Inv(After(f, step, lease), lease)
  {
    ApplyIsRowwise(f.store, CallOf(f, step, lease).value, f.now);
    hide FetchAvailable, Held, Untangled;
    var g := After(f, step, lease);
    forall l | l in g.held
      ensures Held(g, l, lease) && Tracks(g.tracked, l) && l !in g.leaving && l !in g.others
    {
      ClaimHolding(f, step, lease, l);
    }
  }

  lemma GainKeeps(f: Fleet, step: Step, lease: Time, gained: set<Lease>)
    requires Inv(f, lease) && CallOf(f, step, lease).Some?
    requires Spares(f, CallOf(f, step, lease).value)
    requires f.held !! gained
    ensures Inv(f.(store := StoreAfter(f, step, lease), others := f.others + gained), lease)
  {
    hide CallOf, Spares, Apply;
    SparingKeeps(f, step, lease);
    var mid := f.(store := StoreAfter(f, step, lease));
    var g := f.(store := StoreAfter(f, step, lease), others := f.others + gained);
    forall l | l in g.held ensures Held(g, l, lease) {
      assert Held(mid, l, lease);
    }
  }

  lemma SweepKeeps(f: Fleet, step: Step, lease: Time)
    requires Inv(f, lease) && step.Sweep?
    ensures Inv(After(f, step, lease), lease)
  {
    hide FetchExpired;
    OthersSpareHeld(f, step, lease);
    var swept := FetchExpired(f.store, step.leaseFor, step.limit, f.now);
    forall l | l in LeasesOf(swept.rows)
      ensures l !in f.held
    {
      var r :| r in swept.rows && LeaseOf(r) == l;
      SweptFacts(f.store, step.leaseFor, step.limit, f.now, r);
      assert l in f.held ==> Held(f, l, lease);
    }
    GainKeeps(f, step, lease, LeasesOf(swept.rows));
  }

  lemma OtherClaimKeeps(f: Fleet, step: Step, lease: Time)
    requires Inv(f, lease) && step.OtherClaim?
    ensures Inv(After(f, step, lease), lease)
  {
    hide FetchAvailable;
    OthersSpareHeld(f, step, lease);
    var claimed := FetchAvailable(f.store, step.queue, step.leaseFor, step.limit, f.now);
    forall l | l in LeasesOf(claimed.rows)
      ensures l !in f.held
    {
      var r :| r in claimed.rows && LeaseOf(r) == l;
      ClaimedFacts(f.store, step.queue, step.leaseFor, step.limit, f.now, r);
      assert l in f.held ==> Held(f, l, lease);
    }
    GainKeeps(f, step, lease, LeasesOf(claimed.rows));
  }

  lemma RecordKeeps(f: Fleet, step: Step, lease: Time)
    requires Inv(f, lease) && Enabled(f, step, lease) && step.Record?
    ensures Inv(After(f, step, lease), lease)
  {
  }

  lemma LandKeeps(f: Fleet, step: Step, lease: Time)
    requires Inv(f, lease) && Enabled(f, step, lease) && step.Land?
    ensures Inv(After(f, step, lease), lease)
  {
  }

  /** Steps that make no call on the store. */
  lemma LocalKeeps(f: Fleet, step: Step, lease: Time)
    requires Inv(f, lease) && Enabled(f, step, lease) && CallOf(f, step, lease).None?
    ensures Inv(After(f, step, lease), lease)
  {
    var g := After(f, step, lease);
    forall l | l in g.held ensures Held(g, l, lease) && Tracks(g.tracked, l) {
      assert Held(f, l, lease) && Tracks(f.tracked, l);
      if step.GiveUp? || step.Untrack? || step.Retrack? {
        assert step.lease in f.held ==> Held(f, step.lease, lease);
        assert step.lease.id == l.id && step.lease != l ==> step.lease.attempt != l.attempt;
      }
    }
    if step.GiveUp? {
      assert Held(f, step.lease, lease);
    }
  }

  /** Every step of the pool, its heartbeat or the rest of the fleet keeps the invariant. */
  lemma StepKeeps(f: Fleet, step: Step, lease: Time)
    requires Inv(f, lease) && Enabled(f, step, lease)
    ensures Inv(After(f, step, lease), lease)
  {
    if CallOf(f, step, lease).None? {
      LocalKeeps(f, step, lease);
    } else if step.Claim? {
      ClaimKeeps(f, step, lease);
    } else if step.Record? {
      RecordKeeps(f, step, lease);
    } else if step.Land? {
      LandKeeps(f, step, lease);
    } else if step.Sweep? {
      SweepKeeps(f, step, lease);
    } else if step.OtherClaim? {
      OtherClaimKeeps(f, step, lease);
    } else {
      OthersSpareHeld(f, step, lease);
      SparingKeeps(f, step, lease);
    }
  }

  // -------------------------------------------------------------- whole runs

  ghost predicate Possible(f: Fleet, steps: seq<Step>, lease: Time)
    decreases |steps|
  {
    steps == [] || (Enabled(f, steps[0], lease) && Possible(After(f, steps[0], lease), steps[1..], lease))
  }

  ghost function RunAll(f: Fleet, steps: seq<Step>, lease: Time): Fleet
    decreases |steps|
  {
    if steps == [] then f else RunAll(After(f, steps[0], lease), steps[1..], lease)
  }

  /** A pool that starts at now over a store others already use. */
  ghost predicate Starting(f: Fleet) {
    && WellFormed(f.store) && f.held == {} && f.leaving == {} && f.tracked == map[]
    && f.covered == f.now && f.beat.None?
  }

  lemma {:induction false} RunAllKeeps(f: Fleet, steps: seq<Step>, lease: Time)
    requires Inv(f, lease) && Possible(f, steps, lease)
    ensures Inv(RunAll(f, steps, lease), lease)
    decreases |steps|
  {
    if steps != [] {
      StepKeeps(f, steps[0], lease);
      RunAllKeeps(After(f, steps[0], lease), steps[1..], lease);
    }
  }

  /**
   Coverage and lease safety: in every run whose beats keep up and whose claims are
   untangled, snoozes and redrives included, each claim the pool still holds is tracked
   under its exact attempt, is the store's current one, and is returned by no sweep of
   any size.
   */
  lemma HeldClaimsAreSafe(f: Fleet, steps: seq<Step>, lease: Time, l: Lease, leaseFor: Time, limit: int)
    requires Starting(f) && lease > 0 && Possible(f, steps, lease)
    requires l in RunAll(f, steps, lease).held
    ensures var g := RunAll(f, steps, lease);
      && Tracks(g.tracked, l)
      && Refusal(g.store, l).None?
      && forall r | r in FetchExpired(g.store, leaseFor, limit, g.now).rows :: r.id != l.id
  {
    RunAllKeeps(f, steps, lease);
    var g := RunAll(f, steps, lease);
    assert Held(g, l, lease);
    forall r | r in FetchExpired(g.store, leaseFor, limit, g.now).rows ensures r.id != l.id {
      SweptFacts(g.store, leaseFor, limit, g.now, r);
    }
  }

  // ---------------------------------------------------------- the tick schedule

  /**
   The heartbeat's own clockwork: the next beat is snapped exactly when due, one interval
   after the last; a beat is over, landed or missed, before the next is due; and no two
   beats in a row are missed. Nothing is said about when leases lapse.
   */
  ghost predicate OnBeat(f: Fleet, step: Step, next: Time, missed: bool) {
    match step
    case Tick(t) => t <= next && (f.beat.Some? ==> t < next)
    case Snapshot(_) => f.now == next
    case Miss => !missed
    case _ => true
  }

  ghost predicate Beating(f: Fleet, steps: seq<Step>, next: Time, missed: bool, interval: Time, lease: Time)
    decreases |steps|
  {
    steps == [] ||
    (&& Orderly(f, steps[0]) && Untangled(f, steps[0], lease) && OnBeat(f, steps[0], next, missed)
     && Beating(After(f, steps[0], lease), steps[1..],
                NextBeat(steps[0], next, interval), Missed(steps[0], missed), interval, lease))
  }

  function NextBeat(step: Step, next: Time, interval: Time): Time {
    if step.Snapshot? then next + interval else next
  }

  function Missed(step: Step, missed: bool): bool {
    if step.Land? then false else if step.Miss? then true else missed
  }

  /** Where the last beat to land stands: one interval further back for a beat in flight and for a miss. */
  ghost predicate Paced(f: Fleet, next: Time, missed: bool, interval: Time) {
    && f.now <= next
    && f.covered == next - interval - (if missed then interval else 0) - (if f.beat.Some? then interval else 0)
    && (f.beat.Some? ==> f.beat.value.at == next - interval && f.now < next)
  }

  lemma BeatPaces(f: Fleet, step: Step, next: Time, missed: bool, interval: Time, lease: Time)
    requires interval > 0 && Paced(f, next, missed, interval)
    requires Orderly(f, step) && OnBeat(f, step, next, missed)
    ensures Paced(After(f, step, lease), NextBeat(step, next, interval), Missed(step, missed), interval)
    ensures 3 * interval <= lease ==> Timely(f, step, lease)
  {
    hide FetchAvailable, FetchExpired, Apply;
  }

  lemma {:induction false} BeatsKeepUp(
    f: Fleet, steps: seq<Step>, next: Time, missed: bool, interval: Time, lease: Time)
    requires interval > 0 && 3 * interval <= lease && Paced(f, next, missed, interval)
    requires Beating(f, steps, next, missed, interval, lease)
    ensures Possible(f, steps, lease)
    decreases |steps|
  {
    hide Orderly, Untangled, Timely, OnBeat, Paced, After;
    if steps != [] {
      BeatPaces(f, steps[0], next, missed, interval, lease);
      BeatsKeepUp(After(f, steps[0], lease), steps[1..],
                  NextBeat(steps[0], next, interval), Missed(steps[0], missed), interval, lease);
    }
  }

  /**
   With a third of the lease as interval, beats that come on time with no two misses in a
   row keep every held claim safe.
   */
  lemma ThirdOfLeaseIsEnough(
    f: Fleet, steps: seq<Step>, interval: Time, lease: Time, l: Lease, leaseFor: Time, limit: int)
    requires Starting(f) && interval > 0 && 3 * interval <= lease
    requires Beating(f, steps, f.now + interval, false, interval, lease)
    requires l in RunAll(f, steps, lease).held
    ensures var g := RunAll(f, steps, lease);
      && Tracks(g.tracked, l)
      && Refusal(g.store, l).None?
      && forall r | r in FetchExpired(g.store, leaseFor, limit, g.now).rows :: r.id != l.id
  {
    BeatsKeepUp(f, steps, f.now + interval, false, interval, lease);
    HeldClaimsAreSafe(f, steps, lease, l, leaseFor, limit);
  }

  // ------------------------------------------------- which numbers claims hand out

  /** No number is given back: no snooze, no redrive. */
  predicate CalmStep(step: Step) {
    match step
    case Record(_, outcome) => !outcome.Snooze?
    case OtherRecord(_, outcome) => !outcome.Snooze?
    case Redrive(_) => false
    case _ => true
  }

  ghost predicate Past(s: Store, leases: set<Lease>) {
    forall l | l in leases :: l.id in s.jobs && l.attempt <= s.jobs[l.id].attempt
  }

  ghost predicate Calm(op: Op) {
    !op.RedriveOp? && !op.RequeueOp? && !(op.MarkOp? && op.outcome.Snooze?)
  }

  /** Without snooze or redrive no row loses an attempt. */
  lemma CalmGrows(s: Store, op: Op, now: Time)
    requires WellFormed(s) && Calm(op)
    ensures var t := Apply(s, op, now);
      WellFormed(t) && forall id | id in s.jobs :: id in t.jobs && s.jobs[id].attempt <= t.jobs[id].attempt
  {
    ApplyIsRowwise(s, op, now);
    var t := Apply(s, op, now);
    forall id | id in s.jobs ensures id in t.jobs && s.jobs[id].attempt <= t.jobs[id].attempt {
      var e := EventFor(s, op, now, id);
      assert e.Ended? ==> !e.outcome.Snooze?;
    }
  }

  lemma PastStays(s: Store, op: Op, now: Time, leases: set<Lease>)
    requires WellFormed(s) && Calm(op) && Past(s, leases)
    ensures Past(Apply(s, op, now), leases)
  {
    CalmGrows(s, op, now);
  }

  /** Everything the pool or another client is done with, or holds, lies at or below the row's attempt. */
  ghost predicate AllPast(f: Fleet) {
    WellFormed(f.store) && Past(f.store, f.leaving) && Past(f.store, f.others) && Past(f.store, f.held)
  }

  lemma CalmKeepsPast(f: Fleet, step: Step, lease: Time)
    requires AllPast(f) && Orderly(f, step) && CalmStep(step)
    ensures AllPast(After(f, step, lease))
  {
    hide Apply;
    var op := CallOf(f, step, lease);
    if op.Some? {
      CalmGrows(f.store, op.value, f.now);
      PastStays(f.store, op.value, f.now, f.leaving);
      PastStays(f.store, op.value, f.now, f.others);
      PastStays(f.store, op.value, f.now, f.held);
      GainedPast(f, step, lease);
    }
  }

  /** The leases a step hands to the pool or to another client. */
  ghost function Gained(f: Fleet, step: Step, lease: Time): set<Lease> {
    match step
    case Claim(queue, limit) => LeasesOf(FetchAvailable(f.store, queue, lease, limit, f.now).rows)
    case OtherClaim(queue, leaseFor, limit) => LeasesOf(FetchAvailable(f.store, queue, leaseFor, limit, f.now).rows)
    case Sweep(leaseFor, limit) => LeasesOf(FetchExpired(f.store, leaseFor, limit, f.now).rows)
    case _ => {}
  }

  lemma GainedPast(f: Fleet, step: Step, lease: Time)
    requires WellFormed(f.store)
    ensures Past(StoreAfter(f, step, lease), Gained(f, step, lease))
  {
    hide FetchAvailable, FetchExpired;
    forall l | l in Gained(f, step, lease)
      ensures l.id in StoreAfter(f, step, lease).jobs && l.attempt <= StoreAfter(f, step, lease).jobs[l.id].attempt
    {
      match step
      case Claim(queue, limit) =>
        var r :| r in FetchAvailable(f.store, queue, lease, limit, f.now).rows && LeaseOf(r) == l;
        ClaimedFacts(f.store, queue, lease, limit, f.now, r);
      case OtherClaim(queue, leaseFor, limit) =>
        var r :| r in FetchAvailable(f.store, queue, leaseFor, limit, f.now).rows && LeaseOf(r) == l;
        ClaimedFacts(f.store, queue, leaseFor, limit, f.now, r);
      case Sweep(leaseFor, limit) =>
        var r :| r in FetchExpired(f.store, leaseFor, limit, f.now).rows && LeaseOf(r) == l;
        SweptFacts(f.store, leaseFor, limit, f.now, r);
      case _ =>
    }
  }

  /** A claim then hands out a number nobody has used. */
  lemma CalmUntangles(f: Fleet, step: Step, lease: Time)
    requires AllPast(f)
    ensures Untangled(f, step, lease)
  {
    hide FetchAvailable;
    if step.Claim? {
      var rows := FetchAvailable(f.store, step.queue, lease, step.limit, f.now).rows;
      forall i | 0 <= i < |rows| ensures LeaseOf(rows[i]) !in f.leaving && LeaseOf(rows[i]) !in f.others {
        ClaimedFacts(f.store, step.queue, lease, step.limit, f.now, rows[i]);
      }
    }
  }

  ghost predicate OrderlyRun(f: Fleet, steps: seq<Step>, lease: Time)
    decreases |steps|
  {
    steps == [] ||
    (&& Orderly(f, steps[0]) && CalmStep(steps[0]) && Timely(f, steps[0], lease)
     && OrderlyRun(After(f, steps[0], lease), steps[1..], lease))
  }

  /** Without snooze and redrive, claims are untangled of themselves. */
  lemma {:induction false} CalmRunsAreUntangled(f: Fleet, steps: seq<Step>, lease: Time)
    requires AllPast(f) && OrderlyRun(f, steps, lease)
    ensures Possible(f, steps, lease)
    decreases |steps|
  {
    hide Orderly, Untangled, Timely, After, AllPast;
    if steps != [] {
      CalmUntangles(f, steps[0], lease);
      CalmKeepsPast(f, steps[0], lease);
      CalmRunsAreUntangled(After(f, steps[0], lease), steps[1..], lease);
    }
  }

  ghost predicate CalmBeating(f: Fleet, steps: seq<Step>, next: Time, missed: bool, interval: Time, lease: Time)
    decreases |steps|
  {
    steps == [] ||
    (&& Orderly(f, steps[0]) && CalmStep(steps[0]) && OnBeat(f, steps[0], next, missed)
     && CalmBeating(After(f, steps[0], lease), steps[1..],
                    NextBeat(steps[0], next, interval), Missed(steps[0], missed), interval, lease))
  }

  /** So on a calm run the beats' own schedule is all that ThirdOfLeaseIsEnough asks for. */
  lemma {:induction false} CalmBeats(f: Fleet, steps: seq<Step>, next: Time, missed: bool, interval: Time, lease: Time)
    requires AllPast(f) && CalmBeating(f, steps, next, missed, interval, lease)
    ensures Beating(f, steps, next, missed, interval, lease)
    decreases |steps|
  {
    hide Orderly, Untangled, OnBeat, After, AllPast;
    if steps != [] {
      CalmUntangles(f, steps[0], lease);
      CalmKeepsPast(f, steps[0], lease);
      CalmBeats(After(f, steps[0], lease), steps[1..],
                NextBeat(steps[0], next, interval), Missed(steps[0], missed), interval, lease);
    }
  }

  // ------------------------------------------------------ a tangled claim is not safe

  /** Every held claim is tracked and still the store's current one. */
  ghost predicate SafeNow(f: Fleet) {
    forall l | l in f.held :: Tracks(f.tracked, l) && Refusal(f.store, l).None?
  }

  /** A claim that hands out a lease still in use can be undone by the very next step. */
  lemma TangledClaimIsUnsafe(f: Fleet, step: Step, lease: Time) returns (next: Step)
    requires WellFormed(f.store) && step.Claim? && !Untangled(f, step, lease)
    ensures Orderly(After(f, step, lease), next) && !SafeNow(After(After(f, step, lease), next, lease))
  {
    hide FetchAvailable;
    var fetched := FetchAvailable(f.store, step.queue, lease, step.limit, f.now);
    var g := After(f, step, lease);
    var i :| 0 <= i < |fetched.rows| && (LeaseOf(fetched.rows[i]) in f.leaving || LeaseOf(fetched.rows[i]) in f.others);
    var l := LeaseOf(fetched.rows[i]);
    ClaimedFacts(f.store, step.queue, lease, step.limit, f.now, fetched.rows[i]);
    assert l in g.held && Refusal(g.store, l).None?;
    if l in f.leaving {
      next := Untrack(l);
      assert !Tracks(After(g, next, lease).tracked, l);
    } else {
      next := OtherRecord(l, Complete);
      assert Refusal(After(g, next, lease).store, l).Some?;
    }
  }

  lemma ClaimStaysSafe(f: Fleet, step: Step, lease: Time)
    requires Inv(f, lease) && step.Claim?
    ensures SafeNow(After(f, step, lease))
  {
    OthersSpareHeld(f, step, lease);
    hide FetchAvailable;
    var fetched := FetchAvailable(f.store, step.queue, lease, step.limit, f.now);
    var g := After(f, step, lease);
    forall l | l in g.held ensures Tracks(g.tracked, l) && Refusal(g.store, l).None? {
      ClaimTracks(f, step.queue, step.limit, lease, l);
      if l in f.held {
        assert Held(f, l, lease);
        SparedRow(f, CallOf(f, step, lease).value, l);
      } else {
        var i :| 0 <= i < |fetched.rows| && LeaseOf(fetched.rows[i]) == l;
        ClaimedFacts(f.store, step.queue, lease, step.limit, f.now, fetched.rows[i]);
      }
    }
  }

  /** From a good state every orderly step leaves the held claims safe. */
  lemma OneStepIsSafe(f: Fleet, step: Step, lease: Time)
    requires Inv(f, lease) && Orderly(f, step)
    ensures SafeNow(After(f, step, lease))
  {
    if step.Claim? {
      ClaimStaysSafe(f, step, lease);
    } else if step.Tick? {
      assert forall l | l in f.held :: Held(f, l, lease);
    } else {
      StepKeeps(f, step, lease);
      hide After;
      assert forall l | l in After(f, step, lease).held :: Held(After(f, step, lease), l, lease);
    }
  }

  /** The condition on claims is exact: it holds of a claim iff no orderly step can follow that breaks a held claim. */
  lemma UntangledIsExact(f: Fleet, step: Step, lease: Time)
    requires Inv(f, lease) && step.Claim?
    ensures Untangled(f, step, lease) <==>
      forall next | Orderly(After(f, step, lease), next) :: SafeNow(After(After(f, step, lease), next, lease))
  {
    if Untangled(f, step, lease) {
      StepKeeps(f, step, lease);
      hide After, SafeNow, Orderly;
      forall next | Orderly(After(f, step, lease), next)
        ensures SafeNow(After(After(f, step, lease), next, lease))
      {
        OneStepIsSafe(After(f, step, lease), next, lease);
      }
    } else {
      var next := TangledClaimIsUnsafe(f, step, lease);
    }
  }

  lemma UnlimitedClaim(s: Store, queue: Name, leaseFor: Time, now: Time, id: int)
    requires WellFormed(s) && id in s.jobs && IsDue(s.jobs[id], queue, now)
    ensures var f := FetchAvailable(s, queue, leaseFor, -1, now);
      && id in f.store.jobs && f.store.jobs[id] == Evolve(s.jobs[id], Claimed(now + leaseFor))
      && f.store.jobs[id] in f.rows && WellFormed(f.store)
  {
    var key := DueKeys(s.jobs, queue, now);
    assert id in key;
    var ids := DueIds(s, queue, -1, now);
    var i :| 0 <= i < |ids| && ids[i] == id;
    assert FetchAvailable(s, queue, leaseFor, -1, now).rows[i].id == id;
  }

  ghost function AfterClaim(f: Fleet, queue: Name, lease: Time): Fleet {
    After(f, Claim(queue, -1), lease)
  }

  lemma ClaimHolds(f: Fleet, queue: Name, lease: Time, id: int)
    requires WellFormed(f.store) && id in f.store.jobs && IsDue(f.store.jobs[id], queue, f.now)
    ensures var g := AfterClaim(f, queue, lease);
      && WellFormed(g.store) && id in g.store.jobs
      && g.store.jobs[id] == Evolve(f.store.jobs[id], Claimed(f.now + lease))
      && Lease(id, f.store.jobs[id].attempt + 1) in g.held
      && g.leaving == f.leaving && g.now == f.now
  {
    hide FetchAvailable;
    UnlimitedClaim(f.store, queue, lease, f.now, id);
  }

  lemma SnoozeGivesBack(f: Fleet, l: Lease, lease: Time)
    requires WellFormed(f.store) && Refusal(f.store, l).None? && l.attempt >= 1
    ensures var g := After(f, Record(l, Snooze(f.now)), lease);
      && WellFormed(g.store) && l.id in g.store.jobs && l in g.leaving && g.now == f.now
      && g.store.jobs[l.id].attempt == l.attempt - 1 && g.store.jobs[l.id].queue == f.store.jobs[l.id].queue
      && IsDue(g.store.jobs[l.id], f.store.jobs[l.id].queue, g.now)
  {
  }

  /**
   Claim a due job, snooze it to now, claim it again under the same number, then run the
   first claim's deferred remove: the job is held, current and running, and not tracked.
   */
  lemma SnoozeCanTangle(f: Fleet, queue: Name, lease: Time, id: int)
    requires Starting(f) && lease > 0 && id in f.store.jobs && IsDue(f.store.jobs[id], queue, f.now)
    requires f.store.jobs[id].attempt >= 0
    ensures var l := Lease(id, f.store.jobs[id].attempt + 1);
      var a := AfterClaim(f, queue, lease);
      var b := After(a, Record(l, Snooze(f.now)), lease);
      var c := AfterClaim(b, queue, lease);
      var g := After(c, Untrack(l), lease);
      && Orderly(a, Record(l, Snooze(f.now))) && Orderly(c, Untrack(l))
      && !Untangled(b, Claim(queue, -1), lease)
      && l in g.held && Refusal(g.store, l).None? && !Tracks(g.tracked, l)
  {
    hide FetchAvailable, Apply;
    var l := Lease(id, f.store.jobs[id].attempt + 1);
    ClaimHolds(f, queue, lease, id);
    var a := AfterClaim(f, queue, lease);
    SnoozeGivesBack(a, l, lease);
    var b := After(a, Record(l, Snooze(f.now)), lease);
    ClaimHolds(b, queue, lease, id);
    UnlimitedClaim(b.store, queue, lease, b.now, id);
    var rows := FetchAvailable(b.store, queue, lease, -1, b.now).rows;
    var i :| 0 <= i < |rows| && rows[i] == FetchAvailable(b.store, queue, lease, -1, b.now).store.jobs[id];
    assert LeaseOf(rows[i]) == l;
  }
}
