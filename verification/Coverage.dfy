/**
 The pool tracks what it owes: as long as nobody else ends or takes over a claim the pool
 still owes a write for, and no lease is handed out twice, every such claim is in the
 in-flight set, from the claim on and through every hand-over. This is what the
 heartbeat snaps.
 */
module Coverage {
  import opened Jobs
  import S = JobStore
  import I = Inflight
  import O = Ordering
  import opened Pool
  import opened Handover

  // ---------------------------------------------------- every item is in one place

  function HeldTimes(ws: seq<Worker>, n: nat): nat
    decreases |ws|
  {
    if ws == [] then 0 else (if ws[0].Holds() && ws[0].item.no == n then 1 else 0) + HeldTimes(ws[1..], n)
  }

  lemma {:induction false} HeldUpdate(ws: seq<Worker>, i: nat, w: Worker, n: nat)
    requires i < |ws|
    ensures HeldTimes(ws[i := w], n) == HeldTimes(ws, n)
         - (if ws[i].Holds() && ws[i].item.no == n then 1 else 0) + (if w.Holds() && w.item.no == n then 1 else 0)
    decreases |ws|
  {
    if i > 0 {
      HeldUpdate(ws[1..], i - 1, w, n);
      assert ws[i := w][1..] == ws[1..][i - 1 := w];
    } else {
      assert ws[i := w][1..] == ws[1..];
    }
  }

  lemma HeldOnce(ws: seq<Worker>, i: nat)
    requires i < |ws| && ws[i].Holds()
    ensures HeldTimes(ws, ws[i].item.no) >= 1
    ensures HeldTimes(ws, ws[i].item.no) == 1 ==>
      forall k | 0 <= k < |ws| && k != i && ws[k].Holds() :: ws[k].item.no != ws[i].item.no
  {
    var n := ws[i].item.no;
    HeldUpdate(ws, i, Idle, n);
    forall k | 0 <= k < |ws| && k != i && ws[k].Holds() && ws[k].item.no == n ensures HeldTimes(ws, n) >= 2 {
      HeldUpdate(ws[i := Idle], k, Idle, n);
    }
  }

  lemma {:induction false} ListedOnce(items: seq<Item>, x: Item)
    requires x in items
    ensures Times(items, x.no) >= 1
    decreases |items|
  {
    if items[0] != x {
      ListedOnce(items[1..], x);
    }
  }

  /** Each item is with the fetch loop or with one worker, once. */
  ghost predicate Once(p: Pool, n: nat) {
    Times(Pending(p.fetcher), n) + HeldTimes(p.workers, n) <= if n < p.issued then 1 else 0
  }

  /** What is to be requeued is still to be untracked. */
  ghost predicate RequeueFirst(f: Fetcher) {
    forall x | x in ToRequeue(f) :: x in ToUntrack(f)
  }

  lemma FetchedOnce(p: Pool, leases: seq<Lease>, n: nat)
    requires Enabled(p, Fetched(leases)) && Once(p, n)
    ensures Once(After(p, Fetched(leases)), n)
  {
    hide Issue, TrackAll, Times, HeldTimes;
    var items := Issue(p.issued, leases);
    var room := if Room(p) < 0 then 0 else Room(p);
    IssuedOnce(p.issued, leases, n);
    TimesConcat(p.fetcher.claimed, items, n);
    if |items| > room {
      assert (p.fetcher.claimed + items[..room]) + items[room..] == p.fetcher.claimed + items;
    }
  }

  lemma UntrackOnce(p: Pool, step: Step, n: nat)
    requires Enabled(p, step) && Once(p, n) && (step.UntrackSurplus? || step.UntrackAbandoned?)
    ensures Once(After(p, step), n)
  {
    hide HeldTimes;
    if step.UntrackSurplus? {
      var HandingBack(_, _, claimed, _, untrack) := p.fetcher;
      TimesConcat(claimed, untrack, n);
      TimesConcat(claimed, untrack[1..], n);
    }
  }

  lemma HandsOnce(p: Pool, step: Step, n: nat)
    requires Enabled(p, step) && Once(p, n)
    requires step.HandOff? || step.Begin? || step.Finish? || step.Untrack? || step.ReturnToken? || step.Leave?
    ensures Once(After(p, step), n)
  {
    hide HeldTimes;
    HeldUpdate(p.workers, step.worker, After(p, step).workers[step.worker], n);
  }

  lemma OthersOnce(p: Pool, step: Step, n: nat)
    requires Enabled(p, step) && Once(p, n) && Shape(p)
    requires !step.Fetched? && !step.UntrackSurplus? && !step.UntrackAbandoned?
    requires !step.HandOff? && !step.Begin? && !step.Finish? && !step.Untrack? && !step.ReturnToken? && !step.Leave?
    ensures Once(After(p, step), n)
  {
    hide HeldTimes, Times;
    assert After(p, step).workers == p.workers && After(p, step).issued == p.issued;
    if step.EndHandBack? {
      assert p.fetcher.claimed + p.fetcher.untrack == p.fetcher.claimed;
    }
    assert Pending(After(p, step).fetcher) == Pending(p.fetcher);
  }

  lemma StepOnce(p: Pool, step: Step, n: nat)
    requires Enabled(p, step) && Once(p, n) && Shape(p)
    ensures Once(After(p, step), n)
  {
    hide Once, After;
    if step.Fetched? {
      FetchedOnce(p, step.leases, n);
    } else if step.UntrackSurplus? || step.UntrackAbandoned? {
      UntrackOnce(p, step, n);
    } else if step.HandOff? || step.Begin? || step.Finish? || step.Untrack? || step.ReturnToken? || step.Leave? {
      HandsOnce(p, step, n);
    } else {
      OthersOnce(p, step, n);
    }
  }

  lemma StepRequeuesFirst(p: Pool, step: Step)
    requires Enabled(p, step) && RequeueFirst(p.fetcher)
    ensures RequeueFirst(After(p, step).fetcher)
  {
    hide Issue, TrackAll;
    forall x | x in ToRequeue(After(p, step).fetcher) ensures x in ToUntrack(After(p, step).fetcher) {
      if step.RequeueSurplus? || step.RequeueAbandoned? {
        assert x in p.fetcher.requeue;
        assert x in ToRequeue(p.fetcher);
      }
    }
  }

  // --------------------------------------------------------- present and labelled

  ghost predicate InHolder(ws: seq<Worker>, x: Item) {
    exists i :: 0 <= i < |ws| && ws[i].Holds() && ws[i].item == x
  }

  ghost predicate Present(p: Pool, x: Item) {
    x in Pending(p.fetcher) || InHolder(p.workers, x)
  }

  lemma OwedIsPresent(p: Pool, x: Item)
    requires RequeueFirst(p.fetcher) && Owes(p, x)
    ensures Present(p, x)
  {
    if InHand(p.workers, x) {
      var i :| 0 <= i < |p.workers| && Carries(p.workers[i], x);
      assert p.workers[i].Holds() && p.workers[i].item == x;
    } else if p.fetcher.HandingBack? && x !in p.fetcher.claimed {
      assert x in ToRequeue(p.fetcher);
    } else if p.fetcher.Abandoning? {
      assert x in ToRequeue(p.fetcher);
    }
  }

  lemma HolderSet(ws: seq<Worker>, i: nat, w: Worker, x: Item)
    requires i < |ws| && InHolder(ws[i := w], x)
    ensures InHolder(ws, x) || (w.Holds() && w.item == x)
  {
    var k :| 0 <= k < |ws| && ws[i := w][k].Holds() && ws[i := w][k].item == x;
    assert k != i ==> ws[k] == ws[i := w][k];
  }

  /** Nothing new turns up but what a claim issues. */
  lemma StepPresent(p: Pool, step: Step, x: Item)
    requires Enabled(p, step) && Shape(p) && Present(After(p, step), x)
    ensures Present(p, x) || (step.Fetched? && x in Issue(p.issued, step.leases))
  {
    if step.HandOff? || step.Begin? || step.Finish? || step.Untrack? || step.ReturnToken? || step.Leave? {
      WorkerPresent(p, step, x);
    } else {
      hide InHolder, Issue, TrackAll;
      assert After(p, step).workers == p.workers;
      if x in Pending(After(p, step).fetcher) {
        PendingShrinks(p, step, x);
      }
    }
  }

  lemma PendingShrinks(p: Pool, step: Step, x: Item)
    requires Enabled(p, step) && Shape(p) && !step.HandOff?
    requires x in Pending(After(p, step).fetcher)
    ensures x in Pending(p.fetcher) || (step.Fetched? && x in Issue(p.issued, step.leases))
  {
    hide Issue, TrackAll;
  }

  lemma WorkerPresent(p: Pool, step: Step, x: Item)
    requires Enabled(p, step) && Present(After(p, step), x)
    requires step.HandOff? || step.Begin? || step.Finish? || step.Untrack? || step.ReturnToken? || step.Leave?
    ensures Present(p, x)
  {
    var w := p.workers[step.worker];
    assert w.Holds() ==> InHolder(p.workers, w.item);
    hide InHolder;
    var q := After(p, step);
    if InHolder(q.workers, x) {
      HolderSet(p.workers, step.worker, q.workers[step.worker], x);
    }
  }

  // -------------------------------------------------------------------- tracking

  /** Every claim the pool owes a write for is the store's current one, and no lease was handed out twice. */
  ghost predicate Undisturbed(x: Site) {
    && x.again == {}
    && forall item | Owes(x.pool, item) :: S.Refusal(x.store, item.lease).None?
  }

  ghost predicate TracksOwed(x: Site) {
    forall item | Owes(x.pool, item) :: I.Tracks(x.pool.tracked, item.lease)
  }

  ghost predicate Tidy(x: Site) {
    && Good(x) && RequeueFirst(x.pool.fetcher)
    && (forall n: nat :: Once(x.pool, n))
    && (forall item | Present(x.pool, item) :: item.no < |x.book| && item.lease == x.book[item.no])
    && (forall a: nat, b: nat | a < b < |x.book| && x.book[a] == x.book[b] :: a in x.again)
  }

  /** Tracking an owed claim again displaces no other. */
  lemma AddKeeps(x: Site, l: Lease)
    requires Undisturbed(x) && TracksOwed(x) && S.Refusal(x.store, l).None?
    ensures forall item | Owes(x.pool, item) :: I.Tracks(I.Add(x.pool.tracked, l), item.lease)
  {
    hide Owes;
  }

  /** Untracking what is owed no more displaces no claim that is. */
  lemma RemoveKeeps(x: Site, y: Item)
    requires Tidy(x) && Undisturbed(x) && TracksOwed(x) && Present(x.pool, y) && !Owes(x.pool, y)
    ensures forall item | Owes(x.pool, item) :: I.Tracks(I.Remove(x.pool.tracked, y.lease), item.lease)
  {
    hide Owes, Present, Once, Good;
    forall item | Owes(x.pool, item) ensures I.Tracks(I.Remove(x.pool.tracked, y.lease), item.lease) {
      OwedIsPresent(x.pool, item);
      assert item.no == y.no ==> item == y;
      assert item.no != y.no ==> x.book[item.no] != x.book[y.no];
    }
  }

  lemma UntrackedIsDone(p: Pool, step: Step)
    requires Enabled(p, step) && (forall n: nat :: Once(p, n)) && (step.UntrackSurplus? || step.UntrackAbandoned?)
    ensures Present(p, p.fetcher.untrack[0]) && !Owes(p, p.fetcher.untrack[0])
  {
    hide HeldTimes;
    var y := p.fetcher.untrack[0];
    ListedOnce(p.fetcher.untrack, y);
    assert Once(p, y.no);
    if p.fetcher.HandingBack? {
      TimesConcat(p.fetcher.claimed, p.fetcher.untrack, y.no);
      if y in p.fetcher.claimed {
        ListedOnce(p.fetcher.claimed, y);
      }
    }
    if InHand(p.workers, y) {
      var i :| 0 <= i < |p.workers| && Carries(p.workers[i], y);
      HeldOnce(p.workers, i);
    }
  }

  lemma RecordedIsDone(p: Pool, step: Step)
    requires Enabled(p, step) && (forall n: nat :: Once(p, n)) && RequeueFirst(p.fetcher) && step.Untrack?
    ensures Present(p, p.workers[step.worker].item) && !Owes(p, p.workers[step.worker].item)
  {
    hide HeldTimes;
    var y := p.workers[step.worker].item;
    HeldOnce(p.workers, step.worker);
    assert Once(p, y.no);
    assert p.workers[step.worker].Holds() && InHolder(p.workers, y);
    if y in Pending(p.fetcher) {
      ListedOnce(Pending(p.fetcher), y);
    }
    assert y !in Pending(p.fetcher);
    assert y !in Unwritten(p.fetcher) by {
      assert y in ToRequeue(p.fetcher) ==> y in ToUntrack(p.fetcher);
    }
    forall i | 0 <= i < |p.workers| ensures !Carries(p.workers[i], y) {
      assert Carries(p.workers[i], y) ==> p.workers[i].Holds();
    }
  }

  lemma QuietTracks(x: Site, m: Move)
    requires Tidy(x) && Undisturbed(x) && TracksOwed(x) && CanMove(x, m) && m.Quiet?
    ensures TracksOwed(Moved(x, m))
  {
    var p, q := x.pool, After(x.pool, m.step);
    var step := m.step;
    forall item ensures Owes(q, item) <==> Owes(p, item) {
      QuietOwes(p, step, item);
    }
    TrackedBy(p, step);
    if step.Track? || step.Begin? {
      var l := if step.Track? then p.fetcher.rows[0] else p.workers[step.worker].item;
      assert Owes(p, l) by {
        assert step.Begin? ==> Carries(p.workers[step.worker], l);
      }
      hide Owes;
      AddKeeps(x, l.lease);
    } else if step.UntrackSurplus? || step.UntrackAbandoned? {
      UntrackedIsDone(p, step);
      hide Owes;
      RemoveKeeps(x, p.fetcher.untrack[0]);
    } else if step.Untrack? {
      RecordedIsDone(p, step);
      hide Owes;
      RemoveKeeps(x, p.workers[step.worker].item);
    }
  }

  /** Which steps touch the in-flight set, and how. */
  lemma TrackedBy(p: Pool, step: Step)
    requires Enabled(p, step) && !step.Fetched?
    ensures After(p, step).tracked ==
      if step.Track? then I.Add(p.tracked, p.fetcher.rows[0].lease)
      else if step.Begin? then I.Add(p.tracked, p.workers[step.worker].item.lease)
      else if step.UntrackSurplus? || step.UntrackAbandoned? then I.Remove(p.tracked, p.fetcher.untrack[0].lease)
      else if step.Untrack? then I.Remove(p.tracked, p.workers[step.worker].item.lease)
      else p.tracked
  {
  }

  // ---------------------------------------------------------------------- claims

  ghost predicate NewIds(leases: seq<Lease>) {
    forall i, j | 0 <= i < j < |leases| :: leases[i].id != leases[j].id
  }

  /** A claim hands out distinct jobs, none of which was running. */
  lemma ClaimedJobs(x: Site, m: Move)
    requires S.WellFormed(x.store) && m.Claim?
    ensures NewIds(Claimed(x, m))
    ensures forall i | 0 <= i < |Claimed(x, m)| ::
      Claimed(x, m)[i].id in x.store.jobs && !x.store.jobs[Claimed(x, m)[i].id].state.Running?
  {
    var ids := S.DueIds(x.store, m.queue, m.limit, m.now);
    DueInOrder(x.store, m.queue, m.limit, m.now);
    S.ClaimedRow(x.store, m.queue, m.leaseFor, m.limit, m.now);
    hide S.DueIds, S.FetchAvailable, S.DueKeys;
    forall i | 0 <= i < |ids|
      ensures Claimed(x, m)[i].id == ids[i] && !x.store.jobs[ids[i]].state.Running? {
      assert x.store.jobs[ids[i]].id == ids[i];
    }
  }

  lemma DueInOrder(s: S.Store, queue: Name, limit: int, now: Time)
    ensures O.Distinct(S.DueIds(s, queue, limit, now))
  {
    var key := S.DueKeys(s.jobs, queue, now);
    var ids := S.DueIds(s, queue, limit, now);
    assert O.Ordered(key, O.Sorted(key));
    assert forall i, j | 0 <= i < j < |ids| :: O.Precedes(key, ids[i], ids[j]);
  }

  lemma {:induction false} TrackAllKeeps(t: I.Tracked, items: seq<Item>, l: Lease)
    requires I.Tracks(t, l) && forall i | 0 <= i < |items| :: items[i].lease.id != l.id || items[i].lease == l
    ensures I.Tracks(TrackAll(t, items), l)
    decreases |items|
  {
    if items != [] {
      TrackAllKeeps(I.Add(t, items[0].lease), items[1..], l);
    }
  }

  lemma {:induction false} TrackAllTracks(t: I.Tracked, items: seq<Item>, k: nat)
    requires k < |items| && forall i, j | 0 <= i < j < |items| :: items[i].lease.id != items[j].lease.id
    ensures I.Tracks(TrackAll(t, items), items[k].lease)
    decreases |items|
  {
    if k == 0 {
      TrackAllKeeps(I.Add(t, items[0].lease), items[1..], items[0].lease);
    } else {
      TrackAllTracks(I.Add(t, items[0].lease), items[1..], k - 1);
    }
  }

  lemma ClaimTracks(x: Site, m: Move)
    requires Tidy(x) && Undisturbed(x) && TracksOwed(x) && CanMove(x, m) && m.Claim?
    ensures TracksOwed(Moved(x, m))
  {
    hide Good, Once, Present, Owes, S.FetchAvailable, Issue, TrackAll, Claimed;
    var leases := Claimed(x, m);
    var items := Issue(x.pool.issued, leases);
    var y := Moved(x, m);
    assert S.WellFormed(x.store) by { GoodIsWellFormed(x); }
    ClaimedJobs(x, m);
    forall i | 0 <= i < |leases| ensures items[i] == Item(x.pool.issued + i, leases[i]) {
      IssuedItem(x.pool.issued, leases, i);
    }
    assert y.pool.tracked == TrackAll(x.pool.tracked, items);
    hide After;
    forall item | Owes(y.pool, item) ensures I.Tracks(y.pool.tracked, item.lease) {
      FetchedOwes(x.pool, leases, item);
      if Owes(x.pool, item) {
        TrackAllKeeps(x.pool.tracked, items, item.lease);
      } else {
        var k :| 0 <= k < |items| && items[k] == item;
        TrackAllTracks(x.pool.tracked, items, k);
      }
    }
  }

  lemma GoodIsWellFormed(x: Site)
    requires Good(x)
    ensures S.WellFormed(x.store) && Shape(x.pool) && |x.book| == x.pool.issued
  {
  }

  // ------------------------------------------------------------------- whole runs

  lemma PoolStepTidy(x: Site, m: Move, step: Step)
    requires Tidy(x) && CanMove(x, m) && (m.Quiet? || m.Write?) && step == m.step
    ensures Tidy(Moved(x, m))
  {
    hide Good, Once, Present, Enabled, After, RequeueFirst, Writes;
    MoveKeeps(x, m);
    GoodIsWellFormed(x);
    StepRequeuesFirst(x.pool, step);
    var y := Moved(x, m);
    assert y.pool == After(x.pool, step) && y.book == x.book && y.again == x.again;
    NoFetch(x, m);
    forall n: nat ensures Once(y.pool, n) {
      StepOnce(x.pool, step, n);
    }
    forall item | Present(y.pool, item) ensures item.no < |y.book| && item.lease == y.book[item.no] {
      StepPresent(x.pool, step, item);
    }
  }

  lemma NoFetch(x: Site, m: Move)
    requires CanMove(x, m) && (m.Quiet? || m.Write?)
    ensures !m.step.Fetched? && Enabled(x.pool, m.step)
  {
  }

  lemma ClaimTidy(x: Site, m: Move)
    requires Tidy(x) && CanMove(x, m) && m.Claim?
    ensures Tidy(Moved(x, m))
  {
    hide Good, Once, Present, Enabled, RequeueFirst, S.FetchAvailable, Issue, Claimed;
    MoveKeeps(x, m);
    GoodIsWellFormed(x);
    var leases := Claimed(x, m);
    ClaimedJobs(x, m);
    var y := Moved(x, m);
    assert y.pool == After(x.pool, Fetched(leases)) && y.book == x.book + leases;
    assert y.again == x.again + Reissued(x.book, leases);
    hide After;
    StepRequeuesFirst(x.pool, Fetched(leases));
    forall n: nat ensures Once(y.pool, n) {
      StepOnce(x.pool, Fetched(leases), n);
    }
    forall item | Present(y.pool, item) ensures item.no < |y.book| && item.lease == y.book[item.no] {
      StepPresent(x.pool, Fetched(leases), item);
      if !Present(x.pool, item) {
        var i :| 0 <= i < |leases| && Issue(x.pool.issued, leases)[i] == item;
        IssuedItem(x.pool.issued, leases, i);
      }
    }
    forall a: nat, b: nat | a < b < |y.book| && y.book[a] == y.book[b] ensures a in y.again {
      if b >= |x.book| && a < |x.book| {
        assert leases[b - |x.book|] == x.book[a];
      }
    }
  }

  lemma MoveTidy(x: Site, m: Move)
    requires Tidy(x) && CanMove(x, m)
    ensures Tidy(Moved(x, m))
  {
    if m.Other? {
      MoveKeeps(x, m);
      hide Good, Once, Present, RequeueFirst;
    } else if m.Claim? {
      ClaimTidy(x, m);
    } else {
      PoolStepTidy(x, m, m.step);
    }
  }

  lemma MoveTracks(x: Site, m: Move)
    requires Tidy(x) && Undisturbed(x) && TracksOwed(x) && CanMove(x, m)
    ensures TracksOwed(Moved(x, m))
  {
    match m
    case Quiet(_) => QuietTracks(x, m);
    case Claim(_, _, _, _) => ClaimTracks(x, m);
    case Write(step, _, _, _) =>
      TrackedBy(x.pool, step);
      forall item ensures Owes(After(x.pool, step), item) ==> Owes(x.pool, item) {
        WriteOwes(x.pool, step, item);
      }
      hide Owes, After;
    case Other(_, _) =>
  }

  ghost predicate UndisturbedRun(x: Site, moves: seq<Move>)
    requires CanRun(x, moves)
    decreases |moves|
  {
    Undisturbed(x) && (moves == [] || UndisturbedRun(Moved(x, moves[0]), moves[1..]))
  }

  lemma {:induction false} RunTracks(x: Site, moves: seq<Move>)
    requires Tidy(x) && TracksOwed(x) && CanRun(x, moves) && UndisturbedRun(x, moves)
    ensures TracksOwed(AfterMoves(x, moves))
    decreases |moves|
  {
    hide Tidy, TracksOwed, CanMove, Moved, Undisturbed;
    if moves != [] {
      MoveTidy(x, moves[0]);
      MoveTracks(x, moves[0]);
      RunTracks(Moved(x, moves[0]), moves[1..]);
    }
  }

  lemma OpenedIsTidy(size: nat, s: S.Store)
    requires S.WellFormed(s)
    ensures Tidy(Opened(size, s)) && TracksOwed(Opened(size, s))
  {
    OpenedIsGood(size, s);
    hide Good;
    var p := NewPool(size);
    forall n: nat ensures Once(p, n) {
      NoneHeld(p.workers, n);
    }
    forall item ensures !Present(p, item) && !Owes(p, item) {}
    hide Once, Present, Owes;
  }

  lemma {:induction false} NoneHeld(ws: seq<Worker>, n: nat)
    requires forall i | 0 <= i < |ws| :: !ws[i].Holds()
    ensures HeldTimes(ws, n) == 0
    decreases |ws|
  {
    if ws != [] {
      NoneHeld(ws[1..], n);
    }
  }

  /** In every undisturbed run, every claim the pool still owes a write for is tracked under its exact attempt. */
  lemma OwedIsTracked(size: nat, s: S.Store, moves: seq<Move>, item: Item)
    requires S.WellFormed(s) && CanRun(Opened(size, s), moves) && UndisturbedRun(Opened(size, s), moves)
    requires Owes(AfterMoves(Opened(size, s), moves).pool, item)
    ensures I.Tracks(AfterMoves(Opened(size, s), moves).pool.tracked, item.lease)
  {
    hide CanMove, Moved, Owes;
    OpenedIsTidy(size, s);
    RunTracks(Opened(size, s), moves);
  }
}
