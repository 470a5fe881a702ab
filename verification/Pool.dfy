/**
 The worker pool as a step machine: slot tokens, an unbuffered hand-off, claim rounds,
 in-flight tracking and ordered shutdown. Any step of the fetch loop, of any worker, or
 the stop itself may come next; the pool size, the queues and the jobs are unbounded.

 Every row a claim returns is one item with its own number, so that two claims of the
 same job stay apart.
 */
module Pool {
  import opened Jobs
  import opened Inflight

  datatype Item = Item(no: nat, lease: Lease)

  /** Where a worker is: at the hand-off, in runJob, or returning its token. */
  datatype Worker =
    | Idle
    | Got(item: Item)
    | Executing(item: Item)
    | Recorded(item: Item)
    | Owing
    | Gone
  {
    /** A row was handed to this worker and its token has not come back. */
    predicate Busy() {
      Got? || Executing? || Recorded? || Owing?
    }

    predicate Holds() {
      Got? || Executing? || Recorded?
    }
  }

  /** Where the fetch loop is, with the tokens and rows it holds. */
  datatype Fetcher =
    | Waiting
    | Gathering(n: nat)
    | Claiming(n: nat, queues: seq<Name>, claimed: seq<Item>)
    | HandingBack(n: nat, queues: seq<Name>, claimed: seq<Item>, requeue: seq<Item>, untrack: seq<Item>)
    | Releasing(k: nat, rows: seq<Item>, last: bool)
    | Sleeping
    | Offering(rows: seq<Item>, tracked: bool)
    | Abandoning(requeue: seq<Item>, untrack: seq<Item>, slots: nat)
    | Exited

  /**
   Where each item went: into runJob, straight back as surplus, or back unstarted.
   handedBack counts the hand-back writes attempted; the store may refuse one or fail.
   */
  datatype Fates = Fates(
    ran: multiset<nat>,
    surplus: multiset<nat>,
    abandoned: multiset<nat>,
    handedBack: multiset<nat>)

  datatype Pool = Pool(
    size: nat,
    tokens: nat,
    stopped: bool,
    fetcher: Fetcher,
    workers: seq<Worker>,
    tracked: Tracked,
    issued: nat,
    fates: Fates)

  datatype Step =
    | Stop
    // the fetch loop
    | TakeFirst
    | SeeStop
    | TakeMore
    | StartRound(queues: seq<Name>)
    | Fetched(leases: seq<Lease>)
    | FetchFailed
    | RequeueSurplus
    | UntrackSurplus
    | EndHandBack
    | EndRound
    | Release
    | EndRelease
    | Wake
    | Track
    | HandOff(worker: nat)
    | Abandon
    | RequeueAbandoned
    | UntrackAbandoned
    | ReleaseAbandoned
    | EndAbandon
    // a worker
    | Begin(worker: nat)
    | Finish(worker: nat)
    | Untrack(worker: nat)
    | ReturnToken(worker: nat)
    | Leave(worker: nat)

  // ----------------------------------------------------------- helpers

  /** How often item n is listed. */
  function Times(items: seq<Item>, n: nat): nat
    decreases |items|
  {
    if items == [] then 0 else (if items[0].no == n then 1 else 0) + Times(items[1..], n)
  }

  /** Fresh items for the leases a fetch returned. */
  function Issue(from: nat, leases: seq<Lease>): (items: seq<Item>)
    ensures |items| == |leases|
    decreases |leases|
  {
    if leases == [] then [] else [Item(from, leases[0])] + Issue(from + 1, leases[1..])
  }

  function TrackAll(t: Tracked, items: seq<Item>): Tracked
    decreases |items|
  {
    if items == [] then t else TrackAll(Add(t, items[0].lease), items[1..])
  }

  function Room(p: Pool): int {
    match p.fetcher
    case Claiming(n, _, claimed) => n - |claimed|
    case _ => 0
  }

  // ----------------------------------------------------------- enabled steps

  predicate AtWorker(p: Pool, i: nat) {
    i < |p.workers|
  }

  predicate Enabled(p: Pool, step: Step) {
    match step
    case Stop => true
    case TakeFirst => p.fetcher.Waiting? && p.tokens > 0
    case SeeStop => p.fetcher.Waiting? && p.stopped
    case TakeMore => p.fetcher.Gathering? && p.fetcher.n < p.size && p.tokens > 0
    case StartRound(_) => p.fetcher.Gathering? && (p.fetcher.n >= p.size || p.tokens == 0)
    case Fetched(_) => p.fetcher.Claiming? && p.fetcher.queues != []
    case FetchFailed => p.fetcher.Claiming? && p.fetcher.queues != []
    case RequeueSurplus => p.fetcher.HandingBack? && p.fetcher.requeue != []
    case UntrackSurplus => p.fetcher.HandingBack? && p.fetcher.requeue == [] && p.fetcher.untrack != []
    case EndHandBack => p.fetcher.HandingBack? && p.fetcher.requeue == [] && p.fetcher.untrack == []
    case EndRound => p.fetcher.Claiming? && p.fetcher.queues == []
    case Release => p.fetcher.Releasing? && p.fetcher.k > 0
    case EndRelease => p.fetcher.Releasing? && p.fetcher.k == 0
    case Wake => p.fetcher.Sleeping?
    case Track => p.fetcher.Offering? && p.fetcher.rows != [] && !p.fetcher.tracked
    case HandOff(i) =>
      p.fetcher.Offering? && p.fetcher.rows != [] && p.fetcher.tracked && AtWorker(p, i) && p.workers[i].Idle?
    case Abandon => p.fetcher.Offering? && p.fetcher.rows != [] && p.fetcher.tracked && p.stopped
    case RequeueAbandoned => p.fetcher.Abandoning? && p.fetcher.requeue != []
    case UntrackAbandoned => p.fetcher.Abandoning? && p.fetcher.requeue == [] && p.fetcher.untrack != []
    case ReleaseAbandoned =>
      p.fetcher.Abandoning? && p.fetcher.requeue == [] && p.fetcher.untrack == [] && p.fetcher.slots > 0
    case EndAbandon =>
      p.fetcher.Abandoning? && p.fetcher.requeue == [] && p.fetcher.untrack == [] && p.fetcher.slots == 0
    case Begin(i) => AtWorker(p, i) && p.workers[i].Got?
    case Finish(i) => AtWorker(p, i) && p.workers[i].Executing?
    case Untrack(i) => AtWorker(p, i) && p.workers[i].Recorded?
    case ReturnToken(i) => AtWorker(p, i) && p.workers[i].Owing?
    case Leave(i) => AtWorker(p, i) && p.workers[i].Idle? && p.fetcher.Exited?
  }

  // ---------------------------------------------------------------- the steps

  /** After a queue is done: another one, or the end of the round. */
  function NextQueue(p: Pool, n: nat, queues: seq<Name>, claimed: seq<Item>): Fetcher {
    if |claimed| >= n || p.stopped then Claiming(n, [], claimed) else Claiming(n, queues, claimed)
  }

  /** claimRound returns: everything unused is released, and an empty round that sees the stop is the last. */
  function RoundOver(p: Pool, n: nat, claimed: seq<Item>): Fetcher {
    if claimed == [] && p.stopped then Releasing(n, [], true)
    else if |claimed| <= n then Releasing(n - |claimed|, claimed, false)
    else Releasing(0, claimed, false)
  }

  function AfterRows(rows: seq<Item>): Fetcher {
    if rows == [] then Waiting else Offering(rows, false)
  }

  ghost function FetcherStep(p: Pool, step: Step): Pool
    requires Enabled(p, step)
  {
    match step
    case TakeFirst => p.(tokens := p.tokens - 1, fetcher := Gathering(1))
    case SeeStop => p.(fetcher := Exited)
    case TakeMore => p.(tokens := p.tokens - 1, fetcher := Gathering(p.fetcher.n + 1))
    case StartRound(queues) => p.(fetcher := Claiming(p.fetcher.n, queues, []))
    case Fetched(leases) =>
      var items := Issue(p.issued, leases);
      var room := if Room(p) < 0 then 0 else Room(p);
      var q := p.(issued := p.issued + |leases|, tracked := TrackAll(p.tracked, items));
      var n, queues, claimed := p.fetcher.n, p.fetcher.queues[1..], p.fetcher.claimed;
      if |items| > room
      then q.(fetcher := HandingBack(n, queues, claimed + items[..room], items[room..], items[room..]))
      else q.(fetcher := NextQueue(p, n, queues, claimed + items))
    case FetchFailed => p.(fetcher := Claiming(p.fetcher.n, [], p.fetcher.claimed))
    case RequeueSurplus =>
      var HandingBack(n, queues, claimed, requeue, untrack) := p.fetcher;
      p.(fetcher := HandingBack(n, queues, claimed, requeue[1..], untrack),
         fates := p.fates.(handedBack := p.fates.handedBack + multiset{requeue[0].no}))
    case UntrackSurplus =>
      var HandingBack(n, queues, claimed, requeue, untrack) := p.fetcher;
      p.(fetcher := HandingBack(n, queues, claimed, requeue, untrack[1..]),
         tracked := Remove(p.tracked, untrack[0].lease),
         fates := p.fates.(surplus := p.fates.surplus + multiset{untrack[0].no}))
    case EndHandBack => p.(fetcher := NextQueue(p, p.fetcher.n, p.fetcher.queues, p.fetcher.claimed))
    case EndRound => p.(fetcher := RoundOver(p, p.fetcher.n, p.fetcher.claimed))
    case Release => p.(tokens := p.tokens + 1, fetcher := Releasing(p.fetcher.k - 1, p.fetcher.rows, p.fetcher.last))
    case EndRelease =>
      p.(fetcher := if p.fetcher.last then Exited
                    else if p.fetcher.rows == [] then Sleeping else Offering(p.fetcher.rows, false))
    case Wake => p.(fetcher := if p.stopped then Exited else Waiting)
    case Track => p.(fetcher := Offering(p.fetcher.rows, true), tracked := Add(p.tracked, p.fetcher.rows[0].lease))
    case HandOff(i) =>
      var row := p.fetcher.rows[0];
      p.(fetcher := AfterRows(p.fetcher.rows[1..]), workers := p.workers[i := Got(row)])
    case Abandon => p.(fetcher := Abandoning(p.fetcher.rows, p.fetcher.rows, |p.fetcher.rows|))
    case RequeueAbandoned =>
      var Abandoning(requeue, untrack, slots) := p.fetcher;
      p.(fetcher := Abandoning(requeue[1..], untrack, slots),
         fates := p.fates.(handedBack := p.fates.handedBack + multiset{requeue[0].no}))
    case UntrackAbandoned =>
      var Abandoning(requeue, untrack, slots) := p.fetcher;
      p.(fetcher := Abandoning(requeue, untrack[1..], slots),
         tracked := Remove(p.tracked, untrack[0].lease),
         fates := p.fates.(abandoned := p.fates.abandoned + multiset{untrack[0].no}))
    case ReleaseAbandoned =>
      p.(tokens := p.tokens + 1, fetcher := Abandoning(p.fetcher.requeue, p.fetcher.untrack, p.fetcher.slots - 1))
    case EndAbandon => p.(fetcher := Exited)
    case _ => p
  }

  ghost function WorkerStep(p: Pool, step: Step): Pool
    requires Enabled(p, step)
  {
    match step
    case Begin(i) =>
      var item := p.workers[i].item;
      p.(workers := p.workers[i := Executing(item)], tracked := Add(p.tracked, item.lease),
         fates := p.fates.(ran := p.fates.ran + multiset{item.no}))
    case Finish(i) => p.(workers := p.workers[i := Recorded(p.workers[i].item)])
    case Untrack(i) => p.(workers := p.workers[i := Owing], tracked := Remove(p.tracked, p.workers[i].item.lease))
    case ReturnToken(i) => p.(workers := p.workers[i := Idle], tokens := p.tokens + 1)
    case Leave(i) => p.(workers := p.workers[i := Gone])
    case _ => p
  }

  ghost function After(p: Pool, step: Step): Pool
    requires Enabled(p, step)
  {
    if step.Stop? then p.(stopped := true)
    else if step.Begin? || step.Finish? || step.Untrack? || step.ReturnToken? || step.Leave? then WorkerStep(p, step)
    else FetcherStep(p, step)
  }

  // --------------------------------------------------------------- invariants

  /** Tokens the fetch loop holds, counting one for each row it has still to place. */
  function Holding(f: Fetcher): nat {
    match f
    case Gathering(n) => n
    case Claiming(n, _, _) => n
    case HandingBack(n, _, _, _, _) => n
    case Releasing(k, rows, _) => k + |rows|
    case Offering(rows, _) => |rows|
    case Abandoning(_, _, slots) => slots
    case _ => 0
  }

  function BusyCount(ws: seq<Worker>): nat
    decreases |ws|
  {
    if ws == [] then 0 else (if ws[0].Busy() then 1 else 0) + BusyCount(ws[1..])
  }

  /** Free tokens, tokens with the fetch loop and tokens out with workers make up the pool. */
  ghost predicate Slots(p: Pool) {
    |p.workers| == p.size && p.tokens + Holding(p.fetcher) + BusyCount(p.workers) == p.size
  }

  /** Rows never outnumber the tokens taken for them. */
  ghost predicate Shape(p: Pool) {
    && (p.fetcher.Claiming? || p.fetcher.HandingBack? ==> |p.fetcher.claimed| <= p.fetcher.n)
    && (p.fetcher.Offering? ==> p.fetcher.rows != [])
    && (p.fetcher.Abandoning? ==> |p.fetcher.untrack| <= p.fetcher.slots)
    && (p.fetcher.Releasing? && p.fetcher.last ==> p.fetcher.rows == [])
    && (forall i | 0 <= i < |p.workers| :: p.workers[i].Gone? ==> p.fetcher.Exited?)
  }

  lemma {:induction false} BusyUpdate(ws: seq<Worker>, i: nat, w: Worker)
    requires i < |ws|
    ensures BusyCount(ws[i := w]) == BusyCount(ws) - (if ws[i].Busy() then 1 else 0) + (if w.Busy() then 1 else 0)
    decreases |ws|
  {
    if i > 0 {
      BusyUpdate(ws[1..], i - 1, w);
      assert ws[i := w][1..] == ws[1..][i - 1 := w];
    } else {
      assert ws[i := w][1..] == ws[1..];
    }
  }

  lemma WorkerKeepsSlots(p: Pool, step: Step)
    requires Enabled(p, step) && Slots(p) && Shape(p)
    requires step.Begin? || step.Finish? || step.Untrack? || step.ReturnToken? || step.Leave?
    ensures Slots(WorkerStep(p, step)) && Shape(WorkerStep(p, step))
  {
    hide BusyCount;
    BusyUpdate(p.workers, step.worker, WorkerStep(p, step).workers[step.worker]);
  }

  lemma FetchedKeepsSlots(p: Pool, step: Step)
    requires Enabled(p, step) && Slots(p) && Shape(p) && step.Fetched?
    ensures Slots(FetcherStep(p, step)) && Shape(FetcherStep(p, step))
  {
  }

  lemma HandOffKeepsSlots(p: Pool, step: Step)
    requires Enabled(p, step) && Slots(p) && Shape(p) && step.HandOff?
    ensures Slots(FetcherStep(p, step)) && Shape(FetcherStep(p, step))
  {
    hide BusyCount;
    BusyUpdate(p.workers, step.worker, Got(p.fetcher.rows[0]));
  }

  lemma FetcherKeepsSlots(p: Pool, step: Step)
    requires Enabled(p, step) && Slots(p) && Shape(p) && !step.Fetched? && !step.HandOff?
    requires !step.Stop? && !step.Begin? && !step.Finish? && !step.Untrack? && !step.ReturnToken? && !step.Leave?
    ensures Slots(FetcherStep(p, step)) && Shape(FetcherStep(p, step))
  {
    hide BusyCount, Issue, TrackAll;
  }

  /** Every step keeps the tokens conserved. */
  lemma StepKeepsSlots(p: Pool, step: Step)
    requires Enabled(p, step) && Slots(p) && Shape(p)
    ensures Slots(After(p, step)) && Shape(After(p, step))
  {
    if step.Begin? || step.Finish? || step.Untrack? || step.ReturnToken? || step.Leave? {
      WorkerKeepsSlots(p, step);
    } else if step.Fetched? {
      FetchedKeepsSlots(p, step);
    } else if step.HandOff? {
      HandOffKeepsSlots(p, step);
    } else if !step.Stop? {
      FetcherKeepsSlots(p, step);
    }
  }

  /** No send of a token ever finds the channel full. */
  lemma SendsNeverBlock(p: Pool, step: Step)
    requires Slots(p) && Enabled(p, step)
    requires step.Release? || step.ReleaseAbandoned? || step.ReturnToken?
    ensures p.tokens < p.size
  {
    if step.ReturnToken? {
      BusyUpdate(p.workers, step.worker, Idle);
    }
  }

  lemma {:induction false} AllBusy(ws: seq<Worker>)
    requires forall i | 0 <= i < |ws| :: ws[i].Busy()
    ensures BusyCount(ws) == |ws|
    decreases |ws|
  {
    if ws != [] {
      AllBusy(ws[1..]);
    }
  }

  /** A row waiting for hand-off always has an idle worker to take it. */
  lemma HandOffFindsAWorker(p: Pool)
    requires Slots(p) && Shape(p) && p.fetcher.Offering?
    ensures exists i: nat | i < |p.workers| :: p.workers[i].Idle?
  {
    if forall i | 0 <= i < |p.workers| :: !p.workers[i].Idle? {
      AllBusy(p.workers);
    }
  }

  /** Rows claimed and not yet finished, surplus aside. */
  function Unfinished(p: Pool): nat {
    BusyCount(p.workers) +
    match p.fetcher
    case Claiming(_, _, claimed) => |claimed|
    case HandingBack(_, _, claimed, _, _) => |claimed|
    case Releasing(_, rows, _) => |rows|
    case Offering(rows, _) => |rows|
    case Abandoning(_, untrack, _) => |untrack|
    case _ => 0
  }

  lemma UnfinishedFits(p: Pool)
    requires Slots(p) && Shape(p)
    ensures Unfinished(p) <= p.size
  {
  }

  // --------------------------------------------------- where every item goes

  /** Items the fetch loop still answers for. */
  function Pending(f: Fetcher): seq<Item> {
    match f
    case Claiming(_, _, claimed) => claimed
    case HandingBack(_, _, claimed, _, untrack) => claimed + untrack
    case Releasing(_, rows, _) => rows
    case Offering(rows, _) => rows
    case Abandoning(_, untrack, _) => untrack
    case _ => []
  }

  /** How many workers were handed item n and have not begun it. */
  function AtHand(ws: seq<Worker>, n: nat): nat
    decreases |ws|
  {
    if ws == [] then 0 else (if ws[0].Got? && ws[0].item.no == n then 1 else 0) + AtHand(ws[1..], n)
  }

  lemma {:induction false} AtHandUpdate(ws: seq<Worker>, i: nat, w: Worker, n: nat)
    requires i < |ws|
    ensures AtHand(ws[i := w], n) == AtHand(ws, n)
         - (if ws[i].Got? && ws[i].item.no == n then 1 else 0) + (if w.Got? && w.item.no == n then 1 else 0)
    decreases |ws|
  {
    if i > 0 {
      AtHandUpdate(ws[1..], i - 1, w, n);
      assert ws[i := w][1..] == ws[1..][i - 1 := w];
    } else {
      assert ws[i := w][1..] == ws[1..];
    }
  }

  lemma {:induction false} NoneAtHand(ws: seq<Worker>, n: nat)
    requires forall i | 0 <= i < |ws| :: !ws[i].Got?
    ensures AtHand(ws, n) == 0
    decreases |ws|
  {
    if ws != [] {
      NoneAtHand(ws[1..], n);
    }
  }

  /** Item n, once issued, is pending, ran, went back as surplus or was abandoned: exactly one. */
  ghost predicate Accounted(p: Pool, n: nat) {
    p.fates.ran[n] + p.fates.surplus[n] + p.fates.abandoned[n] + Times(Pending(p.fetcher), n) + AtHand(p.workers, n)
    == if n < p.issued then 1 else 0
  }

  /** Each item handed back has had its one hand-back write attempted, or is about to. */
  ghost predicate Returned(p: Pool, n: nat) {
    p.fates.handedBack[n] + Times(ToRequeue(p.fetcher), n)
    == p.fates.surplus[n] + p.fates.abandoned[n] + Times(ToUntrack(p.fetcher), n)
  }

  function ToRequeue(f: Fetcher): seq<Item> {
    match f
    case HandingBack(_, _, _, requeue, _) => requeue
    case Abandoning(requeue, _, _) => requeue
    case _ => []
  }

  function ToUntrack(f: Fetcher): seq<Item> {
    match f
    case HandingBack(_, _, _, _, untrack) => untrack
    case Abandoning(_, untrack, _) => untrack
    case _ => []
  }

  lemma {:induction false} TimesConcat(a: seq<Item>, b: seq<Item>, n: nat)
    ensures Times(a + b, n) == Times(a, n) + Times(b, n)
    decreases |a|
  {
    if a == [] {
      assert a + b == b;
    } else {
      TimesConcat(a[1..], b, n);
      assert (a + b)[1..] == a[1..] + b;
    }
  }

  lemma {:induction false} IssuedOnce(from: nat, leases: seq<Lease>, n: nat)
    ensures Times(Issue(from, leases), n) == if from <= n < from + |leases| then 1 else 0
    decreases |leases|
  {
    if leases != [] {
      IssuedOnce(from + 1, leases[1..], n);
      assert Issue(from, leases)[1..] == Issue(from + 1, leases[1..]);
    }
  }

  lemma FetchedAccounts(p: Pool, step: Step, n: nat)
    requires Enabled(p, step) && step.Fetched? && Accounted(p, n) && Returned(p, n)
    ensures Accounted(FetcherStep(p, step), n) && Returned(FetcherStep(p, step), n)
  {
    hide Issue, TrackAll, Times, AtHand;
    var items := Issue(p.issued, step.leases);
    var room := if Room(p) < 0 then 0 else Room(p);
    IssuedOnce(p.issued, step.leases, n);
    TimesConcat(p.fetcher.claimed, items, n);
    if |items| > room {
      assert (p.fetcher.claimed + items[..room]) + items[room..] == p.fetcher.claimed + items;
    }
  }

  lemma HandBackAccounts(p: Pool, step: Step, n: nat)
    requires Enabled(p, step) && Accounted(p, n) && Returned(p, n)
    requires step.RequeueSurplus? || step.UntrackSurplus? || step.EndHandBack?
    ensures Accounted(FetcherStep(p, step), n) && Returned(FetcherStep(p, step), n)
  {
    hide AtHand;
    var HandingBack(_, _, claimed, _, untrack) := p.fetcher;
    TimesConcat(claimed, untrack, n);
    if step.UntrackSurplus? {
      TimesConcat(claimed, untrack[1..], n);
    }
  }

  /** A row passes from the fetch loop to a worker, and from the hand-off into runJob. */
  lemma HandOffAccounts(p: Pool, step: Step, n: nat)
    requires Enabled(p, step) && Accounted(p, n) && Returned(p, n) && (step.HandOff? || step.Begin?)
    ensures Accounted(After(p, step), n) && Returned(After(p, step), n)
  {
    hide AtHand;
    AtHandUpdate(p.workers, step.worker, After(p, step).workers[step.worker], n);
  }

  lemma AbandonAccounts(p: Pool, step: Step, n: nat)
    requires Enabled(p, step) && Accounted(p, n) && Returned(p, n)
    requires step.Abandon? || step.RequeueAbandoned? || step.UntrackAbandoned?
    ensures Accounted(FetcherStep(p, step), n) && Returned(FetcherStep(p, step), n)
  {
    hide AtHand;
  }

  predicate MovesItems(step: Step) {
    step.Fetched? || step.RequeueSurplus? || step.UntrackSurplus? || step.EndHandBack? || step.HandOff?
    || step.Begin? || step.Abandon? || step.RequeueAbandoned? || step.UntrackAbandoned?
  }

  lemma WorkersMoveNothing(p: Pool, step: Step, n: nat)
    requires Enabled(p, step) && (step.Finish? || step.Untrack? || step.ReturnToken? || step.Leave?)
    ensures var q := After(p, step);
      && q.fates == p.fates && q.issued == p.issued && q.fetcher == p.fetcher
      && AtHand(q.workers, n) == AtHand(p.workers, n)
  {
    hide AtHand;
    AtHandUpdate(p.workers, step.worker, After(p, step).workers[step.worker], n);
  }

  lemma OthersMoveNothing(p: Pool, step: Step)
    requires Enabled(p, step) && Shape(p) && !MovesItems(step)
    requires !step.Finish? && !step.Untrack? && !step.ReturnToken? && !step.Leave?
    ensures var q := After(p, step);
      && q.fates == p.fates && q.issued == p.issued && q.workers == p.workers
      && Pending(q.fetcher) == Pending(p.fetcher)
      && ToRequeue(q.fetcher) == ToRequeue(p.fetcher) && ToUntrack(q.fetcher) == ToUntrack(p.fetcher)
  {
  }

  /** Every step keeps every item accounted for. */
  lemma StepKeepsAccounts(p: Pool, step: Step, n: nat)
    requires Enabled(p, step) && Accounted(p, n) && Returned(p, n) && Shape(p)
    ensures Accounted(After(p, step), n) && Returned(After(p, step), n)
  {
    hide AtHand, Times;
    if step.Fetched? {
      FetchedAccounts(p, step, n);
    } else if step.RequeueSurplus? || step.UntrackSurplus? || step.EndHandBack? {
      HandBackAccounts(p, step, n);
    } else if step.HandOff? || step.Begin? {
      HandOffAccounts(p, step, n);
    } else if MovesItems(step) {
      AbandonAccounts(p, step, n);
    } else {
      hide After;
      if step.Finish? || step.Untrack? || step.ReturnToken? || step.Leave? {
        WorkersMoveNothing(p, step, n);
      } else {
        OthersMoveNothing(p, step);
      }
    }
  }

  // ------------------------------------------- what stays in the in-flight set

  ghost predicate InRows(items: seq<Item>, l: Lease) {
    exists k | 0 <= k < |items| :: items[k].lease == l
  }

  ghost predicate InHands(ws: seq<Worker>, l: Lease) {
    exists i | 0 <= i < |ws| :: ws[i].Holds() && ws[i].item.lease == l
  }

  ghost predicate Live(p: Pool, l: Lease) {
    InRows(Pending(p.fetcher), l) || InHands(p.workers, l)
  }

  /** Nothing is tracked but leases of items still pending or in a worker's hands. */
  ghost predicate TrackedLive(p: Pool) {
    forall l: Lease | Tracks(p.tracked, l) :: Live(p, l)
  }

  lemma {:induction false} TrackAllOrigin(t: Tracked, items: seq<Item>, l: Lease)
    requires Tracks(TrackAll(t, items), l)
    ensures Tracks(t, l) || InRows(items, l)
    decreases |items|
  {
    if items != [] {
      TrackAllOrigin(Add(t, items[0].lease), items[1..], l);
      if InRows(items[1..], l) {
        var k :| 0 <= k < |items[1..]| && items[1..][k].lease == l;
        assert items[k + 1].lease == l;
      } else {
        assert Tracks(t, l) || items[0].lease == l;
      }
    }
  }

  lemma RowsGrow(a: seq<Item>, b: seq<Item>, l: Lease)
    ensures InRows(a + b, l) <==> InRows(a, l) || InRows(b, l)
  {
    if InRows(a, l) {
      var k :| 0 <= k < |a| && a[k].lease == l;
      assert (a + b)[k].lease == l;
    }
    if InRows(b, l) {
      var k :| 0 <= k < |b| && b[k].lease == l;
      assert (a + b)[|a| + k].lease == l;
    }
  }

  lemma FetchedStaysLive(p: Pool, step: Step)
    requires Enabled(p, step) && step.Fetched? && TrackedLive(p)
    ensures TrackedLive(FetcherStep(p, step))
  {
    hide Issue, TrackAll, InRows, InHands;
    var q := FetcherStep(p, step);
    var items := Issue(p.issued, step.leases);
    var room := if Room(p) < 0 then 0 else Room(p);
    forall l: Lease | Tracks(q.tracked, l) ensures Live(q, l) {
      TrackAllOrigin(p.tracked, items, l);
      RowsGrow(p.fetcher.claimed, items, l);
      if |items| > room {
        assert (p.fetcher.claimed + items[..room]) + items[room..] == p.fetcher.claimed + items;
      }
    }
  }

  /** Removing a lease from the set lets one item that carries it go. */
  lemma RemovedStaysLive(p: Pool, q: Pool, first: seq<Item>, untrack: seq<Item>)
    requires TrackedLive(p) && untrack != [] && Pending(p.fetcher) == first + untrack
    requires Pending(q.fetcher) == first + untrack[1..] && q.workers == p.workers
    requires q.tracked == Remove(p.tracked, untrack[0].lease)
    ensures TrackedLive(q)
  {
    forall l: Lease | Tracks(q.tracked, l) ensures Live(q, l) {
      assert Tracks(p.tracked, l) && l != untrack[0].lease;
      assert untrack == [untrack[0]] + untrack[1..];
      RowsGrow(first, untrack, l);
      RowsGrow([untrack[0]], untrack[1..], l);
      RowsGrow(first, untrack[1..], l);
    }
  }

  lemma UntrackStaysLive(p: Pool, step: Step)
    requires Enabled(p, step) && (step.UntrackSurplus? || step.UntrackAbandoned?) && TrackedLive(p)
    ensures TrackedLive(FetcherStep(p, step))
  {
    hide TrackedLive;
    var q := FetcherStep(p, step);
    if step.UntrackSurplus? {
      RemovedStaysLive(p, q, p.fetcher.claimed, p.fetcher.untrack);
    } else {
      var u := p.fetcher.untrack;
      assert [] + u == u && [] + u[1..] == u[1..];
      RemovedStaysLive(p, q, [], u);
    }
  }

  lemma HandOffStaysLive(p: Pool, step: Step)
    requires Enabled(p, step) && step.HandOff? && TrackedLive(p)
    ensures TrackedLive(FetcherStep(p, step))
  {
    var q := FetcherStep(p, step);
    var rows := p.fetcher.rows;
    forall l: Lease | Tracks(q.tracked, l) ensures Live(q, l) {
      assert Live(p, l);
      if InHands(p.workers, l) {
        var i :| 0 <= i < |p.workers| && p.workers[i].Holds() && p.workers[i].item.lease == l;
        assert q.workers[i] == p.workers[i];
      } else if rows[0].lease == l {
        assert q.workers[step.worker].Holds() && q.workers[step.worker].item.lease == l;
      } else {
        assert rows == [rows[0]] + rows[1..];
        RowsGrow([rows[0]], rows[1..], l);
      }
    }
  }

  lemma WorkerStaysLive(p: Pool, step: Step)
    requires Enabled(p, step) && TrackedLive(p)
    requires step.Begin? || step.Finish? || step.Untrack? || step.ReturnToken? || step.Leave?
    ensures TrackedLive(WorkerStep(p, step))
  {
    var q := WorkerStep(p, step);
    var w := step.worker;
    forall l: Lease | Tracks(q.tracked, l) ensures Live(q, l) {
      if step.Begin? && l == p.workers[w].item.lease {
        assert q.workers[w].Holds() && q.workers[w].item.lease == l;
      } else {
        assert Tracks(p.tracked, l) && Live(p, l);
        if InHands(p.workers, l) {
          var i :| 0 <= i < |p.workers| && p.workers[i].Holds() && p.workers[i].item.lease == l;
          assert q.workers[i].Holds() && q.workers[i].item.lease == l;
        }
      }
    }
  }

  /** The remaining fetch steps move no item between lists. */
  lemma OthersStayLive(p: Pool, step: Step)
    requires Enabled(p, step) && TrackedLive(p) && Shape(p)
    requires step.Stop? || step.TakeFirst? || step.SeeStop? || step.TakeMore? || step.StartRound? || step.FetchFailed?
          || step.RequeueSurplus? || step.EndHandBack? || step.EndRound? || step.Release? || step.EndRelease?
          || step.Wake? || step.Track? || step.Abandon? || step.RequeueAbandoned? || step.ReleaseAbandoned?
          || step.EndAbandon?
    ensures TrackedLive(After(p, step))
  {
    var q := After(p, step);
    assert Pending(q.fetcher) == Pending(p.fetcher) && q.workers == p.workers;
    forall l: Lease | Tracks(q.tracked, l) ensures Live(q, l) {
      if step.Track? && l == p.fetcher.rows[0].lease {
        assert Pending(q.fetcher)[0].lease == l;
      } else {
        assert Tracks(p.tracked, l);
      }
    }
  }

  lemma StepStaysLive(p: Pool, step: Step)
    requires Enabled(p, step) && TrackedLive(p) && Shape(p)
    ensures TrackedLive(After(p, step))
  {
    hide TrackedLive;
    if step.Begin? || step.Finish? || step.Untrack? || step.ReturnToken? || step.Leave? {
      WorkerStaysLive(p, step);
    } else if step.Fetched? {
      FetchedStaysLive(p, step);
    } else if step.UntrackSurplus? || step.UntrackAbandoned? {
      UntrackStaysLive(p, step);
    } else if step.HandOff? {
      HandOffStaysLive(p, step);
    } else {
      OthersStayLive(p, step);
    }
  }

  // -------------------------------------------------------------- whole runs

  ghost predicate Inv(p: Pool) {
    Slots(p) && Shape(p) && TrackedLive(p) && forall n: nat :: Accounted(p, n) && Returned(p, n)
  }

  /** A pool as newRunner builds it: every token free, every worker at the hand-off. */
  function NewPool(size: nat): Pool {
    Pool(size, size, false, Waiting, seq(size, i => Idle), map[],
         0, Fates(multiset{}, multiset{}, multiset{}, multiset{}))
  }

  lemma {:induction false} NoneBusy(ws: seq<Worker>)
    requires forall i | 0 <= i < |ws| :: !ws[i].Busy()
    ensures BusyCount(ws) == 0
    decreases |ws|
  {
    if ws != [] {
      NoneBusy(ws[1..]);
    }
  }

  lemma NewPoolInv(size: nat)
    ensures Inv(NewPool(size))
  {
    NoneBusy(NewPool(size).workers);
    forall n: nat ensures AtHand(NewPool(size).workers, n) == 0 {
      NoneAtHand(NewPool(size).workers, n);
    }
  }

  lemma StepKeeps(p: Pool, step: Step)
    requires Inv(p) && Enabled(p, step)
    ensures Inv(After(p, step))
  {
    hide Slots, Shape, TrackedLive, Accounted, Returned, After, Enabled;
    StepKeepsSlots(p, step);
    StepStaysLive(p, step);
    forall n: nat ensures Accounted(After(p, step), n) && Returned(After(p, step), n) {
      StepKeepsAccounts(p, step, n);
    }
  }

  ghost predicate Possible(p: Pool, steps: seq<Step>)
    decreases |steps|
  {
    steps == [] || (Enabled(p, steps[0]) && Possible(After(p, steps[0]), steps[1..]))
  }

  ghost function RunAll(p: Pool, steps: seq<Step>): Pool
    requires Possible(p, steps)
    decreases |steps|
  {
    if steps == [] then p else RunAll(After(p, steps[0]), steps[1..])
  }

  lemma {:induction false} RunKeeps(p: Pool, steps: seq<Step>)
    requires Inv(p) && Possible(p, steps)
    ensures Inv(RunAll(p, steps))
    decreases |steps|
  {
    hide Inv, Enabled, After;
    if steps != [] {
      StepKeeps(p, steps[0]);
      RunKeeps(After(p, steps[0]), steps[1..]);
    }
  }

  /**
   In every run of a pool of any size, under every interleaving: the tokens are conserved,
   the rows in hand fit the pool, no token send can block, and a row on offer has a taker.
   */
  lemma SlotsConserved(size: nat, steps: seq<Step>)
    requires Possible(NewPool(size), steps)
    ensures var p := RunAll(NewPool(size), steps);
      && p.size == size && Slots(p) && Unfinished(p) <= size
      && (forall step | Enabled(p, step) && (step.Release? || step.ReleaseAbandoned? || step.ReturnToken?) ::
            p.tokens < size)
      && (p.fetcher.Offering? ==> exists i: nat | i < |p.workers| :: p.workers[i].Idle?)
  {
    NewPoolInv(size);
    RunKeeps(NewPool(size), steps);
    RunKeepsSize(NewPool(size), steps);
    var p := RunAll(NewPool(size), steps);
    UnfinishedFits(p);
    forall step | Enabled(p, step) && (step.Release? || step.ReleaseAbandoned? || step.ReturnToken?)
      ensures p.tokens < size
    {
      SendsNeverBlock(p, step);
    }
    if p.fetcher.Offering? {
      HandOffFindsAWorker(p);
    }
  }

  lemma {:induction false} RunKeepsSize(p: Pool, steps: seq<Step>)
    requires Possible(p, steps)
    ensures RunAll(p, steps).size == p.size
    decreases |steps|
  {
    if steps != [] {
      RunKeepsSize(After(p, steps[0]), steps[1..]);
    }
  }

  /** The fetch loop and every worker have exited. */
  ghost predicate Drained(p: Pool) {
    p.fetcher.Exited? && forall i | 0 <= i < |p.workers| :: p.workers[i].Gone?
  }

  /**
   A finished shutdown strands nothing, wherever the stop landed: every row any claim
   returned went to exactly one of runJob, surplus hand-back or abandonment, a hand-back
   write was attempted once for each of the latter two and no other, every token is home,
   and nothing is tracked.
   */
  lemma ShutdownStrandsNothing(size: nat, steps: seq<Step>, n: nat)
    requires Possible(NewPool(size), steps)
    requires Drained(RunAll(NewPool(size), steps))
    ensures var p := RunAll(NewPool(size), steps);
      && p.fates.ran[n] + p.fates.surplus[n] + p.fates.abandoned[n] == (if n < p.issued then 1 else 0)
      && p.fates.handedBack[n] == p.fates.surplus[n] + p.fates.abandoned[n]
      && p.tokens == size
      && p.tracked == map[]
  {
    NewPoolInv(size);
    RunKeeps(NewPool(size), steps);
    RunKeepsSize(NewPool(size), steps);
    var p := RunAll(NewPool(size), steps);
    assert Accounted(p, n) && Returned(p, n);
    NoneBusy(p.workers);
    NoneAtHand(p.workers, n);
    assert forall l: Lease :: !Live(p, l);
    forall id ensures id !in p.tracked {
      assert id in p.tracked ==> Tracks(p.tracked, Lease(id, p.tracked[id]));
    }
  }
}
