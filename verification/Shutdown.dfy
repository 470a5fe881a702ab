/**
 Shutdown ends: once the stop is in, every step brings the pool closer to drained, save for
 what a claim that still comes back puts on top, and until it is drained some step other
 than a claim can be taken.
 */
module Shutdown {
  import opened Pool

  /** What is left to do for one row the fetch loop still has to place. */
  function Weight(size: nat): nat {
    2 * size + 12
  }

  function FetcherWork(f: Fetcher, size: nat): int {
    match f
    case Exited => 0
    case Sleeping => 1
    case Waiting => 2 * size + 5
    case Gathering(n) => 2 * size - n + 5
    case Claiming(n, queues, claimed) => Weight(size) * |claimed| + n + (if queues == [] then 3 else 4)
    case HandingBack(n, _, claimed, requeue, untrack) =>
      Weight(size) * |claimed| + n + 5 + |requeue| + |untrack|
    case Releasing(k, rows, _) => Weight(size) * |rows| + k + 2
    case Offering(rows, tracked) => Weight(size) * |rows| + (if tracked then 0 else 1)
    case Abandoning(requeue, untrack, slots) => |requeue| + |untrack| + slots + 1
  }

  function WorkerWork(w: Worker): nat {
    match w
    case Got(_) => 5
    case Executing(_) => 4
    case Recorded(_) => 3
    case Owing => 2
    case Idle => 1
    case Gone => 0
  }

  function HandsWork(ws: seq<Worker>): nat
    decreases |ws|
  {
    if ws == [] then 0 else WorkerWork(ws[0]) + HandsWork(ws[1..])
  }

  function Work(p: Pool): int {
    FetcherWork(p.fetcher, p.size) + HandsWork(p.workers)
  }

  lemma {:induction false} HandsUpdate(ws: seq<Worker>, i: nat, w: Worker)
    requires i < |ws|
    ensures HandsWork(ws[i := w]) == HandsWork(ws) - WorkerWork(ws[i]) + WorkerWork(w)
    decreases |ws|
  {
    if i > 0 {
      HandsUpdate(ws[1..], i - 1, w);
      assert ws[i := w][1..] == ws[1..][i - 1 := w];
    } else {
      assert ws[i := w][1..] == ws[1..];
    }
  }

  ghost predicate Settled(p: Pool) {
    Slots(p) && Shape(p)
  }

  lemma HeldFits(p: Pool)
    requires Settled(p)
    ensures Holding(p.fetcher) <= p.size
  {
  }

  lemma WorkIsNatural(p: Pool)
    requires Settled(p)
    ensures Work(p) >= 0
  {
    HeldFits(p);
  }

  lemma WorkerProgress(p: Pool, step: Step)
    requires Enabled(p, step)
    requires step.Begin? || step.Finish? || step.Untrack? || step.ReturnToken? || step.Leave?
    ensures Work(After(p, step)) < Work(p)
  {
    hide HandsWork;
    HandsUpdate(p.workers, step.worker, After(p, step).workers[step.worker]);
  }

  lemma GatherProgress(p: Pool, step: Step)
    requires Enabled(p, step) && Settled(p) && p.stopped
    requires step.TakeFirst? || step.SeeStop? || step.TakeMore? || step.StartRound? || step.FetchFailed?
          || step.Wake? || step.Track?
    ensures Work(After(p, step)) < Work(p)
  {
    HeldFits(p);
    hide HandsWork, BusyCount, Weight;
    assert Weight(p.size) * 0 == 0;
  }

  lemma RoundProgress(p: Pool, step: Step)
    requires Enabled(p, step) && Settled(p) && p.stopped
    requires step.RequeueSurplus? || step.UntrackSurplus? || step.EndHandBack? || step.EndRound?
          || step.Release? || step.EndRelease?
    ensures Work(After(p, step)) < Work(p)
  {
    hide HandsWork, BusyCount, Weight;
    assert Weight(p.size) * 0 == 0;
  }

  lemma HandOffProgress(p: Pool, step: Step)
    requires Enabled(p, step) && Settled(p) && p.stopped && step.HandOff?
    ensures Work(After(p, step)) < Work(p)
  {
    var n := |p.fetcher.rows|;
    assert Weight(p.size) * n == Weight(p.size) * (n - 1) + Weight(p.size) && Weight(p.size) * 0 == 0;
    assert Weight(p.size) == 2 * p.size + 12;
    hide HandsWork, BusyCount, Weight;
    HandsUpdate(p.workers, step.worker, Got(p.fetcher.rows[0]));
  }

  lemma AbandonProgress(p: Pool, step: Step)
    requires Enabled(p, step) && Settled(p) && p.stopped
    requires step.Abandon? || step.RequeueAbandoned? || step.UntrackAbandoned?
          || step.ReleaseAbandoned? || step.EndAbandon?
    ensures Work(After(p, step)) < Work(p)
  {
    if step.Abandon? {
      ManyRows(Weight(p.size), |p.fetcher.rows|);
    }
    hide HandsWork, BusyCount, Weight;
  }

  lemma ManyRows(weight: nat, n: nat)
    requires weight >= 12
    ensures weight * n >= 12 * n
  {
  }

  /** What a step may add to the work left: a claim in flight at the stop still brings its rows. */
  function Cost(step: Step, size: nat): nat {
    match step
    case Stop => 1
    case Fetched(leases) => 2 + Weight(size) * |leases|
    case _ => 0
  }

  lemma LateRows(weight: nat, c: nat, n: nat, room: nat)
    requires weight >= 2 && room <= n
    ensures weight * (c + room) + 2 * (n - room) <= weight * c + weight * n
  {
    assert weight * (c + room) == weight * c + weight * room;
    assert weight * n == weight * room + weight * (n - room);
    assert weight * (n - room) >= 2 * (n - room);
  }

  lemma FetchedCosts(p: Pool, step: Step)
    requires Enabled(p, step) && Settled(p) && p.stopped && step.Fetched?
    ensures Work(After(p, step)) < Work(p) + Cost(step, p.size)
  {
    var c, n, room := |p.fetcher.claimed|, |step.leases|, Room(p);
    LateRows(Weight(p.size), c, n, if room < n then room else n);
    hide HandsWork, BusyCount, Weight, TrackAll, Issue;
    var f := After(p, step).fetcher;
    if n > room {
      assert f.HandingBack? && |f.claimed| == c + room && |f.requeue| == |f.untrack| == n - room;
    } else {
      assert f.Claiming? && f.queues == [] && |f.claimed| == c + n;
    }
  }

  /** Once stopped, every step does some of the work left, up to what it costs. */
  lemma StoppedStepProgresses(p: Pool, step: Step)
    requires Enabled(p, step) && Settled(p) && p.stopped
    ensures Work(After(p, step)) < Work(p) + Cost(step, p.size)
  {
    if step.Begin? || step.Finish? || step.Untrack? || step.ReturnToken? || step.Leave? {
      WorkerProgress(p, step);
    } else if step.HandOff? {
      HandOffProgress(p, step);
    } else if step.Abandon? || step.RequeueAbandoned? || step.UntrackAbandoned?
              || step.ReleaseAbandoned? || step.EndAbandon? {
      AbandonProgress(p, step);
    } else if step.Fetched? {
      FetchedCosts(p, step);
    } else if step.RequeueSurplus? || step.UntrackSurplus? || step.EndHandBack? || step.EndRound?
              || step.Release? || step.EndRelease? {
      RoundProgress(p, step);
    } else if !step.Stop? {
      GatherProgress(p, step);
    }
  }

  function TotalCost(steps: seq<Step>, size: nat): nat {
    if steps == [] then 0 else Cost(steps[0], size) + TotalCost(steps[1..], size)
  }

  /** A stopped pool takes at most Work steps more, and a bounded number for each row a late claim brings. */
  lemma {:induction false} ShutdownEnds(p: Pool, steps: seq<Step>)
    requires Settled(p) && p.stopped && Possible(p, steps)
    ensures |steps| <= Work(p) + TotalCost(steps, p.size)
    decreases |steps|
  {
    hide Work, Slots, Shape, Enabled, After, Cost;
    WorkIsNatural(p);
    if steps != [] {
      StoppedStepProgresses(p, steps[0]);
      StepKeepsSlots(p, steps[0]);
      StopStays(p, steps[0]);
      ShutdownEnds(After(p, steps[0]), steps[1..]);
    }
  }

  ghost predicate Draining(steps: seq<Step>) {
    forall i | 0 <= i < |steps| :: !steps[i].Stop? && !steps[i].Fetched?
  }

  lemma {:induction false} DrainingIsFree(steps: seq<Step>, size: nat)
    requires Draining(steps)
    ensures TotalCost(steps, size) == 0
    decreases |steps|
  {
    if steps != [] {
      assert !steps[0].Stop? && !steps[0].Fetched?;
      DrainingIsFree(steps[1..], size);
    }
  }

  /** When claims fail on their cancelled context the bound is fixed at the stop. */
  lemma FailingClaimsEnd(p: Pool, steps: seq<Step>)
    requires Settled(p) && p.stopped && Possible(p, steps) && Draining(steps)
    ensures |steps| <= Work(p)
  {
    ShutdownEnds(p, steps);
    DrainingIsFree(steps, p.size);
  }

  lemma StopStays(p: Pool, step: Step)
    requires Enabled(p, step) && p.stopped
    ensures After(p, step).stopped && After(p, step).size == p.size
  {
  }

  /** The step a stopped fetch loop can take. */
  function NextStep(f: Fetcher, p: Pool): Step {
    match f
    case Waiting => SeeStop
    case Gathering(n) => if n < p.size && p.tokens > 0 then TakeMore else StartRound([])
    case Claiming(_, queues, _) => if queues == [] then EndRound else FetchFailed
    case HandingBack(_, _, _, requeue, untrack) =>
      if requeue != [] then RequeueSurplus else if untrack != [] then UntrackSurplus else EndHandBack
    case Releasing(k, _, _) => if k > 0 then Release else EndRelease
    case Sleeping => Wake
    case Offering(_, tracked) => if tracked then Abandon else Track
    case Abandoning(requeue, untrack, slots) =>
      if requeue != [] then RequeueAbandoned else if untrack != [] then UntrackAbandoned
      else if slots > 0 then ReleaseAbandoned else EndAbandon
    case Exited => Stop
  }

  function WorkerNext(w: Worker, i: nat): Step {
    match w
    case Got(_) => Begin(i)
    case Executing(_) => Finish(i)
    case Recorded(_) => Untrack(i)
    case Owing => ReturnToken(i)
    case _ => Leave(i)
  }

  /** A stopped pool that is not drained is never stuck. */
  lemma ShutdownNeverStuck(p: Pool)
    requires Settled(p) && p.stopped && !Drained(p)
    ensures exists step: Step :: !step.Stop? && !step.Fetched? && Enabled(p, step)
  {
    if p.fetcher.Exited? {
      var i: nat :| i < |p.workers| && !p.workers[i].Gone?;
      assert Enabled(p, WorkerNext(p.workers[i], i));
    } else {
      assert Enabled(p, NextStep(p.fetcher, p));
    }
  }
}
