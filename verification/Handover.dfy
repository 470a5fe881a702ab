/**
 The pool over its store: what becomes in the store of every row a claim brought in. Any
 other client may make any call on the store in between.
 */
module Handover {
  import opened Jobs
  import S = JobStore
  import opened Pool

  /**
   book[n] is the lease item n was claimed under; lost holds the items whose write never
   reached the store, again those whose lease a later claim handed out once more, which
   takes a snooze or a redrive.
   */
  datatype Site = Site(pool: Pool, store: S.Store, book: seq<Lease>, lost: set<nat>, again: set<nat>)

  datatype Move =
    | Quiet(step: Step)
    | Claim(queue: Name, leaseFor: Time, limit: int, now: Time)
    | Write(step: Step, lands: bool, outcome: Outcome, now: Time)
    | Other(op: S.Op, now: Time)

  /** The steps that end a claim in the store: a worker's outcome, and a hand-back. */
  predicate Writes(step: Step) {
    step.Finish? || step.RequeueSurplus? || step.RequeueAbandoned?
  }

  function Written(p: Pool, step: Step): Item
    requires Writes(step) && Enabled(p, step)
  {
    if step.Finish? then p.workers[step.worker].item else p.fetcher.requeue[0]
  }

  ghost function Leases(rows: seq<Row>): seq<Lease> {
    seq(|rows|, i requires 0 <= i < |rows| => LeaseOf(rows[i]))
  }

  ghost function Claimed(x: Site, m: Move): seq<Lease>
    requires m.Claim?
  {
    Leases(S.FetchAvailable(x.store, m.queue, m.leaseFor, m.limit, m.now).rows)
  }

  /** The leases a call hands out anew. */
  ghost function HandedOut(s: S.Store, op: S.Op, now: Time): seq<Lease> {
    match op
    case FetchAvailableOp(queue, leaseFor, limit) => Leases(S.FetchAvailable(s, queue, leaseFor, limit, now).rows)
    case _ => []
  }

  /** The items claimed before under one of these leases. */
  ghost function Reissued(book: seq<Lease>, leases: seq<Lease>): set<nat> {
    set n: nat | n < |book| && book[n] in leases
  }

  ghost predicate CanMove(x: Site, m: Move) {
    match m
    case Quiet(step) => Enabled(x.pool, step) && !Writes(step) && !step.Fetched?
    case Claim(_, _, _, _) => Enabled(x.pool, Fetched(Claimed(x, m)))
    case Write(step, _, _, _) => Writes(step) && Enabled(x.pool, step)
    case Other(_, _) => true
  }

  ghost function Moved(x: Site, m: Move): Site
    requires CanMove(x, m)
  {
    match m
    case Quiet(step) => x.(pool := After(x.pool, step))
    case Claim(queue, leaseFor, limit, now) =>
      var leases := Claimed(x, m);
      x.(pool := After(x.pool, Fetched(leases)), book := x.book + leases, again := x.again + Reissued(x.book, leases),
         store := S.FetchAvailable(x.store, queue, leaseFor, limit, now).store)
    case Write(step, lands, outcome, now) =>
      var item := Written(x.pool, step);
      var y := x.(pool := After(x.pool, step));
      if lands then y.(store := S.Mark(x.store, item.lease, outcome, now).0) else y.(lost := x.lost + {item.no})
    case Other(op, now) =>
      x.(store := S.Apply(x.store, op, now), again := x.again + Reissued(x.book, HandedOut(x.store, op, now)))
  }

  // ------------------------------------------------------------------ in the store

  /** Only a claim that hands the lease out again makes it current again. */
  lemma StaysRefused(s: S.Store, op: S.Op, now: Time, l: Lease)
    requires S.WellFormed(s) && S.Refusal(s, l).Some?
    ensures S.Refusal(S.Apply(s, op, now), l).Some? || l in HandedOut(s, op, now)
  {
    S.ApplyIsRowwise(s, op, now);
    if l.id in s.jobs {
      var e := S.EventFor(s, op, now, l.id);
      if e.Claimed? && s.jobs[l.id].attempt + 1 == l.attempt {
        ClaimHandsOut(s, op, now, l);
      } else {
        hide S.Apply;
      }
    }
  }

  lemma ClaimHandsOut(s: S.Store, op: S.Op, now: Time, l: Lease)
    requires S.WellFormed(s) && op.FetchAvailableOp? && l.id in S.DueIds(s, op.queue, op.limit, now)
    requires s.jobs[l.id].attempt + 1 == l.attempt
    ensures l in HandedOut(s, op, now)
  {
    hide S.DueIds;
    var ids := S.DueIds(s, op.queue, op.limit, now);
    var f := S.FetchAvailable(s, op.queue, op.leaseFor, op.limit, now);
    S.ClaimedRow(s, op.queue, op.leaseFor, op.limit, now);
    var i :| 0 <= i < |ids| && ids[i] == l.id;
    assert Leases(f.rows)[i] == l;
  }

  /** A write that reaches the store leaves the claim refused from then on, whether it was accepted or not. */
  lemma LandedCloses(s: S.Store, l: Lease, outcome: Outcome, now: Time)
    ensures S.Refusal(S.Mark(s, l, outcome, now).0, l).Some?
  {
  }

  // ------------------------------------------------------------------- in the pool

  /** Items the fetch loop holds that nothing has been written for. */
  function Unwritten(f: Fetcher): seq<Item> {
    match f
    case Claiming(_, _, claimed) => claimed
    case HandingBack(_, _, claimed, requeue, _) => claimed + requeue
    case Releasing(_, rows, _) => rows
    case Offering(rows, _) => rows
    case Abandoning(requeue, _, _) => requeue
    case _ => []
  }

  predicate Carries(w: Worker, x: Item) {
    (w.Got? || w.Executing?) && w.item == x
  }

  ghost predicate InHand(ws: seq<Worker>, x: Item) {
    exists i :: 0 <= i < |ws| && Carries(ws[i], x)
  }

  /** The pool still owes item x its write. */
  ghost predicate Owes(p: Pool, x: Item) {
    x in Unwritten(p.fetcher) || InHand(p.workers, x)
  }

  lemma HandSet(ws: seq<Worker>, i: nat, w: Worker, x: Item)
    requires i < |ws|
    ensures InHand(ws[i := w], x) ==> InHand(ws, x) || Carries(w, x)
    ensures InHand(ws, x) ==> InHand(ws[i := w], x) || Carries(ws[i], x)
    ensures Carries(w, x) ==> InHand(ws[i := w], x)
    ensures Carries(ws[i], x) ==> InHand(ws, x)
  {
    var vs := ws[i := w];
    assert vs[i] == w;
    if InHand(vs, x) {
      var k :| 0 <= k < |vs| && Carries(vs[k], x);
      assert k != i ==> ws[k] == vs[k];
    }
    if InHand(ws, x) {
      var k :| 0 <= k < |ws| && Carries(ws[k], x);
      assert k != i ==> vs[k] == ws[k];
    }
  }

  lemma HandOffOwes(p: Pool, step: Step, x: Item)
    requires Enabled(p, step) && step.HandOff?
    ensures Owes(After(p, step), x) <==> Owes(p, x)
  {
    hide InHand;
    var rows := p.fetcher.rows;
    HandSet(p.workers, step.worker, Got(rows[0]), x);
    assert rows == [rows[0]] + rows[1..];
  }

  lemma WorkerOwes(p: Pool, step: Step, x: Item)
    requires Enabled(p, step) && (step.Begin? || step.Untrack? || step.ReturnToken? || step.Leave?)
    ensures Owes(After(p, step), x) <==> Owes(p, x)
  {
    hide InHand;
    HandSet(p.workers, step.worker, After(p, step).workers[step.worker], x);
  }

  lemma QuietOwes(p: Pool, step: Step, x: Item)
    requires Enabled(p, step) && Shape(p) && !Writes(step) && !step.Fetched?
    ensures Owes(After(p, step), x) <==> Owes(p, x)
  {
    if step.HandOff? {
      HandOffOwes(p, step, x);
    } else if step.Begin? || step.Untrack? || step.ReturnToken? || step.Leave? {
      WorkerOwes(p, step, x);
    } else {
      hide InHand;
      assert After(p, step).workers == p.workers;
      assert Unwritten(After(p, step).fetcher) == Unwritten(p.fetcher);
    }
  }

  /** A write settles its own item and no other. */
  lemma WriteOwes(p: Pool, step: Step, x: Item)
    requires Writes(step) && Enabled(p, step)
    ensures Owes(p, Written(p, step))
    ensures Owes(After(p, step), x) ==> Owes(p, x)
    ensures Owes(p, x) && x != Written(p, step) ==> Owes(After(p, step), x)
  {
    hide InHand;
    if step.Finish? {
      HandSet(p.workers, step.worker, Recorded(p.workers[step.worker].item), x);
      HandSet(p.workers, step.worker, Recorded(p.workers[step.worker].item), Written(p, step));
    } else {
      var requeue := p.fetcher.requeue;
      assert requeue == [requeue[0]] + requeue[1..];
      assert requeue[0] in Unwritten(p.fetcher);
    }
  }

  lemma FetchedOwes(p: Pool, leases: seq<Lease>, x: Item)
    requires Enabled(p, Fetched(leases))
    ensures Owes(After(p, Fetched(leases)), x) <==> Owes(p, x) || x in Issue(p.issued, leases)
  {
    hide InHand, Issue, TrackAll;
    var items := Issue(p.issued, leases);
    var room := if Room(p) < 0 then 0 else Room(p);
    if |items| > room {
      assert items == items[..room] + items[room..];
    }
  }

  lemma {:induction false} IssuedItem(from: nat, leases: seq<Lease>, i: nat)
    requires i < |leases|
    ensures Issue(from, leases)[i] == Item(from + i, leases[i])
    decreases |leases|
  {
    if i > 0 {
      IssuedItem(from + 1, leases[1..], i - 1);
    }
  }

  // -------------------------------------------------------------------- together

  ghost predicate Settled(x: Site, n: nat)
    requires n < |x.book|
  {
    || S.Refusal(x.store, x.book[n]).Some?
    || n in x.lost || n in x.again || Owes(x.pool, Item(n, x.book[n]))
  }

  /** Every item issued is refused by the store, had its write lost or its lease reissued, or is still owed a write. */
  ghost predicate Good(x: Site) {
    && S.WellFormed(x.store) && Slots(x.pool) && Shape(x.pool)
    && |x.book| == x.pool.issued
    && (forall n: nat | n < |x.book| :: Settled(x, n))
    && (forall item | Owes(x.pool, item) :: item.no < |x.book| && item.lease == x.book[item.no])
  }

  lemma IssuedStays(p: Pool, step: Step)
    requires Enabled(p, step) && !step.Fetched?
    ensures After(p, step).issued == p.issued
  {
  }

  lemma QuietKeeps(x: Site, m: Move)
    requires Good(x) && CanMove(x, m) && m.Quiet?
    ensures Good(Moved(x, m))
  {
    hide Owes, Shape, Slots, Enabled, After, S.Refusal;
    var y := Moved(x, m);
    StepKeepsSlots(x.pool, m.step);
    IssuedStays(x.pool, m.step);
    forall item ensures Owes(y.pool, item) <==> Owes(x.pool, item) {
      QuietOwes(x.pool, m.step, item);
    }
    forall n: nat | n < |y.book| ensures Settled(y, n) {
      assert Settled(x, n);
    }
  }

  lemma OtherKeeps(x: Site, m: Move)
    requires Good(x) && CanMove(x, m) && m.Other?
    ensures Good(Moved(x, m))
  {
    hide Owes, Shape, Slots, S.Refusal, S.Apply, HandedOut;
    var y := Moved(x, m);
    forall n: nat | n < |y.book| ensures Settled(y, n) {
      assert Settled(x, n);
      if S.Refusal(x.store, x.book[n]).Some? {
        StaysRefused(x.store, m.op, m.now, x.book[n]);
      }
    }
    StaysWellFormed(x.store, m.op, m.now);
  }

  lemma StaysWellFormed(s: S.Store, op: S.Op, now: Time)
    requires S.WellFormed(s)
    ensures S.WellFormed(S.Apply(s, op, now))
  {
    S.ApplyIsRowwise(s, op, now);
  }

  lemma WriteKeeps(x: Site, m: Move)
    requires Good(x) && CanMove(x, m) && m.Write?
    ensures Good(Moved(x, m))
  {
    hide Owes, Shape, Slots, Enabled, After, Written, Writes, S.Mark, S.Refusal;
    var y := Moved(x, m);
    var item := Written(x.pool, m.step);
    var op := S.MarkOp(item.lease, m.outcome);
    StepKeepsSlots(x.pool, m.step);
    WriteIsNoFetch(m.step);
    IssuedStays(x.pool, m.step);
    StaysWellFormed(x.store, op, m.now);
    WriteOwes(x.pool, m.step, item);
    forall n: nat | n < |y.book| ensures Settled(y, n) {
      assert Settled(x, n);
      WriteOwes(x.pool, m.step, Item(n, x.book[n]));
      if n == item.no && m.lands {
        LandedCloses(x.store, item.lease, m.outcome, m.now);
      } else if S.Refusal(x.store, x.book[n]).Some? {
        StaysRefused(x.store, op, m.now, x.book[n]);
      }
    }
    forall other | Owes(y.pool, other) ensures other.no < |y.book| && other.lease == y.book[other.no] {
      WriteOwes(x.pool, m.step, other);
    }
  }

  lemma WriteIsNoFetch(step: Step)
    requires Writes(step)
    ensures !step.Fetched?
  {
  }

  lemma ClaimKeeps(x: Site, m: Move)
    requires Good(x) && CanMove(x, m) && m.Claim?
    ensures Good(Moved(x, m))
  {
    hide Owes, Shape, Slots, Enabled, S.FetchAvailable, S.Refusal, Issue;
    var y := Moved(x, m);
    var leases := Claimed(x, m);
    var op := S.FetchAvailableOp(m.queue, m.leaseFor, m.limit);
    StepKeepsSlots(x.pool, Fetched(leases));
    IssuedGrows(x.pool, leases);
    hide After;
    StaysWellFormed(x.store, op, m.now);
    forall n: nat | n < |y.book| ensures Settled(y, n) {
      FetchedOwes(x.pool, leases, Item(n, y.book[n]));
      if n < |x.book| {
        assert Settled(x, n);
        if S.Refusal(x.store, x.book[n]).Some? {
          StaysRefused(x.store, op, m.now, x.book[n]);
        }
      } else {
        IssuedItem(x.pool.issued, leases, n - |x.book|);
        assert Issue(x.pool.issued, leases)[n - |x.book|] == Item(n, y.book[n]);
      }
    }
    forall item | Owes(y.pool, item) ensures item.no < |y.book| && item.lease == y.book[item.no] {
      FetchedOwes(x.pool, leases, item);
      if !Owes(x.pool, item) {
        var i :| 0 <= i < |leases| && Issue(x.pool.issued, leases)[i] == item;
        IssuedItem(x.pool.issued, leases, i);
      }
    }
  }

  lemma IssuedGrows(p: Pool, leases: seq<Lease>)
    requires Enabled(p, Fetched(leases))
    ensures After(p, Fetched(leases)).issued == p.issued + |leases|
  {
  }

  ghost predicate CanRun(x: Site, moves: seq<Move>)
    decreases |moves|
  {
    moves == [] || (CanMove(x, moves[0]) && CanRun(Moved(x, moves[0]), moves[1..]))
  }

  ghost function AfterMoves(x: Site, moves: seq<Move>): Site
    requires CanRun(x, moves)
    decreases |moves|
  {
    if moves == [] then x else AfterMoves(Moved(x, moves[0]), moves[1..])
  }

  lemma {:induction false} RunStaysGood(x: Site, moves: seq<Move>)
    requires Good(x) && CanRun(x, moves)
    ensures Good(AfterMoves(x, moves))
    decreases |moves|
  {
    hide Good, CanMove, Moved;
    if moves != [] {
      MoveKeeps(x, moves[0]);
      RunStaysGood(Moved(x, moves[0]), moves[1..]);
    }
  }

  lemma MoveKeeps(x: Site, m: Move)
    requires Good(x) && CanMove(x, m)
    ensures Good(Moved(x, m))
  {
    hide Good, CanMove, Moved;
    match m
    case Quiet(_) => QuietKeeps(x, m);
    case Claim(_, _, _, _) => ClaimKeeps(x, m);
    case Write(_, _, _, _) => WriteKeeps(x, m);
    case Other(_, _) => OtherKeeps(x, m);
  }

  /** A new pool over any store. */
  ghost function Opened(size: nat, s: S.Store): Site {
    Site(NewPool(size), s, [], {}, {})
  }

  lemma OpenedIsGood(size: nat, s: S.Store)
    requires S.WellFormed(s)
    ensures Good(Opened(size, s))
  {
    NewPoolInv(size);
    hide Inv, Slots, Shape;
    forall item ensures !Owes(NewPool(size), item) {}
  }

  /**
   Once the pool has drained, every lease it was ever handed is refused by the store, save
   those whose write never got there, which are left to the lease sweep, and those a later
   claim was handed again.
   */
  lemma DrainedLeavesNothingRunning(size: nat, s: S.Store, moves: seq<Move>, n: nat)
    requires S.WellFormed(s) && CanRun(Opened(size, s), moves)
    requires Drained(AfterMoves(Opened(size, s), moves).pool)
    ensures var x := AfterMoves(Opened(size, s), moves);
      && |x.book| == x.pool.issued
      && (n < |x.book| && n !in x.lost && n !in x.again ==> S.Refusal(x.store, x.book[n]).Some?)
  {
    hide CanMove, Moved, S.Refusal;
    OpenedIsGood(size, s);
    RunStaysGood(Opened(size, s), moves);
    var x := AfterMoves(Opened(size, s), moves);
    if n < |x.book| && n !in x.lost && n !in x.again {
      assert Settled(x, n);
      assert !Owes(x.pool, Item(n, x.book[n]));
    }
  }

  // ---------------------------------------------------------------- calm runs

  predicate Calm(m: Move) {
    match m
    case Write(_, _, outcome, _) => !outcome.Snooze?
    case Other(op, _) => !op.RedriveOp? && !(op.MarkOp? && op.outcome.Snooze?)
    case _ => true
  }

  ghost predicate AllCalm(moves: seq<Move>) {
    forall i | 0 <= i < |moves| :: Calm(moves[i])
  }

  ghost predicate Past(s: S.Store, l: Lease) {
    l.id in s.jobs && l.attempt <= s.jobs[l.id].attempt
  }

  /** No row has come back below a number already handed out. */
  ghost predicate AllPast(x: Site) {
    S.WellFormed(x.store) && forall n: nat | n < |x.book| :: Past(x.store, x.book[n])
  }

  lemma StaysPast(s: S.Store, op: S.Op, now: Time, l: Lease)
    requires S.WellFormed(s) && Past(s, l) && !op.RedriveOp? && !(op.MarkOp? && op.outcome.Snooze?)
    ensures Past(S.Apply(s, op, now), l) && l !in HandedOut(s, op, now)
  {
    S.ApplyIsRowwise(s, op, now);
    var e := S.EventFor(s, op, now, l.id);
    assert e.Ended? ==> !e.outcome.Snooze?;
    forall i | 0 <= i < |HandedOut(s, op, now)| ensures HandedOut(s, op, now)[i] != l {
      HandedOutIsNew(s, op, now, i);
    }
    hide S.Apply;
  }

  lemma HandedOutIsNew(s: S.Store, op: S.Op, now: Time, i: nat)
    requires S.WellFormed(s) && i < |HandedOut(s, op, now)|
    ensures var l := HandedOut(s, op, now)[i];
      && l.id in s.jobs && l.attempt == s.jobs[l.id].attempt + 1 && Past(S.Apply(s, op, now), l)
  {
    var ids := S.DueIds(s, op.queue, op.limit, now);
    assert ids[i] in s.jobs && s.jobs[ids[i]].id == ids[i];
  }

  lemma CalmMove(x: Site, m: Move)
    requires AllPast(x) && CanMove(x, m) && Calm(m)
    ensures AllPast(Moved(x, m)) && Moved(x, m).again == x.again
  {
    hide S.Mark, S.FetchAvailable, HandedOut, Past, Enabled, After, Written;
    var y := Moved(x, m);
    match m
    case Quiet(_) =>
    case Claim(queue, leaseFor, limit, now) => CalmClaim(x, m);
    case Write(step, lands, outcome, now) =>
      var op := S.MarkOp(Written(x.pool, step).lease, outcome);
      StaysWellFormed(x.store, op, now);
      forall n: nat | n < |x.book| ensures Past(S.Apply(x.store, op, now), x.book[n]) {
        StaysPast(x.store, op, now, x.book[n]);
      }
    case Other(op, now) =>
      StaysWellFormed(x.store, op, now);
      forall n: nat | n < |x.book| ensures Past(y.store, x.book[n]) && x.book[n] !in HandedOut(x.store, op, now) {
        StaysPast(x.store, op, now, x.book[n]);
      }
  }

  lemma CalmClaim(x: Site, m: Move)
    requires AllPast(x) && CanMove(x, m) && m.Claim?
    ensures AllPast(Moved(x, m)) && Moved(x, m).again == x.again
  {
    hide S.FetchAvailable, Past, Enabled, After;
    var y := Moved(x, m);
    var op := S.FetchAvailableOp(m.queue, m.leaseFor, m.limit);
    var leases := Claimed(x, m);
    assert leases == HandedOut(x.store, op, m.now) && y.store == S.Apply(x.store, op, m.now);
    hide HandedOut, S.Apply;
    StaysWellFormed(x.store, op, m.now);
    forall n: nat | n < |x.book| ensures Past(y.store, x.book[n]) && x.book[n] !in leases {
      StaysPast(x.store, op, m.now, x.book[n]);
    }
    forall i | 0 <= i < |leases| ensures Past(y.store, leases[i]) {
      HandedOutIsNew(x.store, op, m.now, i);
    }
  }

  /** Without snooze and redrive no lease is handed out twice. */
  lemma {:induction false} CalmNeverReissues(x: Site, moves: seq<Move>)
    requires AllPast(x) && CanRun(x, moves) && AllCalm(moves)
    ensures AfterMoves(x, moves).again == x.again
    decreases |moves|
  {
    hide AllPast, CanMove, Moved, Calm;
    if moves != [] {
      assert Calm(moves[0]);
      CalmMove(x, moves[0]);
      CalmNeverReissues(Moved(x, moves[0]), moves[1..]);
    }
  }
}
