/**
 The error ledger: how many errors a row holds since it was inserted or last
 redriven, against the attempt it shows.
 */
module Ledger {
  import opened Jobs
  import opened JobStore
  import opened Journal
  import opened Fence

  ghost predicate NotedErrs(claims: seq<Claim>) {
    forall j | 0 <= j < |claims| :: claims[j].noted ==> claims[j].end.Errs()
  }

  lemma {:induction false} SpentParts(claims: seq<Claim>)
    requires NotedErrs(claims)
    ensures Tally(claims, Spent) == Tally(claims, Noted) + Tally(claims, Blank) + Tally(claims, Finished)
    decreases |claims|
  {
    if claims != [] {
      SpentParts(claims[..|claims| - 1]);
    }
  }

  lemma {:induction false} NoneFinished(claims: seq<Claim>)
    requires forall j | 0 <= j < |claims| :: claims[j].end.Returns()
    ensures Tally(claims, Finished) == 0
    decreases |claims|
  {
    if claims != [] {
      NoneFinished(claims[..|claims| - 1]);
    }
  }

  lemma RowCountsSpent(row: Row, h: History)
    requires Consistent(row, h)
    ensures row.attempt == Tally(h.claims, Spent) + if row.state.Running? then 1 else 0
    ensures Tally(h.claims, Finished) == if row.state.Completed? then 1 else 0
  {
    if h.claims != [] {
      var n := |h.claims| - 1;
      AttemptCountsSpent(h.claims, n);
      NoneFinished(h.claims[..n]);
    }
  }

  /** Errors since the insert or the last redrive. */
  function Recorded(row: Row, h: History): int {
    |row.errors| - h.base
  }

  /** The attempts that ought to have left an error behind. */
  function Owed(row: Row): int {
    if row.state.Running? || row.state.Completed? then row.attempt - 1 else row.attempt
  }

  lemma RowLedger(row: Row, h: History)
    requires Consistent(row, h)
    ensures Recorded(row, h) + Tally(h.claims, Blank) == Owed(row)
  {
    SpentParts(h.claims);
    RowCountsSpent(row, h);
  }

  /** What a row's fields say about one another. */
  ghost predicate Balanced(row: Row, h: History) {
    && Recorded(row, h) == Owed(row) - Tally(h.claims, Blank)
    && (row.state.Running? <==> row.leasedUntil.Some?)
    && (row.state.Terminal() <==> row.finalizedAt.Some?)
    && (row.state.Running? ==> row.attempt >= 1)
    && (row.state.Running? ==> forall at, now :: Finish(row, Snooze(at), now).attempt == row.attempt - 1)
  }

  /**
   In every run the errors recorded fall short of the attempts owed by exactly the
   claims that ended in an error with no detail. With this: running iff leased,
   finalized iff terminal, and a running row has an attempt for a snooze to give back.
   */
  lemma LedgerOverRuns(calls: seq<Call>, id: int)
    ensures var w := Run(START, calls);
      id in w.store.jobs ==> id in w.journal && Balanced(w.store.jobs[id], w.journal[id])
  {
    var w := Run(START, calls);
    RunKeeps(START, calls);
    if id in w.store.jobs {
      assert Shaped(w.store.jobs[id]) && Consistent(w.store.jobs[id], w.journal[id]);
      RowLedger(w.store.jobs[id], w.journal[id]);
      RowCountsSpent(w.store.jobs[id], w.journal[id]);
    }
  }

  // ------------------------------------------------------ documented runs

  ghost predicate Documented(op: Op) {
    op.MarkOp? && EndOf(op.outcome, false).Errs() ==> Documents(op.outcome)
  }

  ghost predicate NoBlanks(w: World) {
    forall id | id in w.journal :: Tally(w.journal[id].claims, Blank) == 0
  }

  lemma EventLeavesNoBlank(h: History, row: Row, e: Event, requeue: bool)
    requires Tally(h.claims, Blank) == 0
    requires e.Ended? && EndOf(e.outcome, requeue).Errs() ==> Documents(e.outcome)
    ensures Tally(HistoryAfter(h, row, e, requeue).claims, Blank) == 0
  {
  }

  lemma AdvanceLeavesNoBlank(w: World, op: Op, now: Time)
    requires Inv(w) && NoBlanks(w) && Documented(op)
    ensures NoBlanks(Advance(w, op, now))
  {
    var j := JournalAfter(w, op, now);
    forall id | id in j ensures Tally(j[id].claims, Blank) == 0 {
      if id in w.store.jobs {
        EventLeavesNoBlank(w.journal[id], w.store.jobs[id], EventFor(w.store, op, now, id), op.RequeueOp?);
      }
    }
  }

  lemma {:induction false} RunLeavesNoBlank(w: World, calls: seq<Call>)
    requires Inv(w) && NoBlanks(w)
    requires forall k | 0 <= k < |calls| :: Documented(calls[k].op)
    ensures NoBlanks(Run(w, calls))
    decreases |calls|
  {
    if calls != [] {
      assert Documented(calls[0].op);
      AdvanceKeeps(w, calls[0].op, calls[0].now);
      AdvanceLeavesNoBlank(w, calls[0].op, calls[0].now);
      RunLeavesNoBlank(Advance(w, calls[0].op, calls[0].now), calls[1..]);
    }
  }

  /** When every failure comes with a detail, the errors are exactly the attempts owed. */
  lemma DocumentedLedger(calls: seq<Call>, id: int)
    requires forall k | 0 <= k < |calls| :: Documented(calls[k].op)
    ensures var w := Run(START, calls);
      id in w.store.jobs ==> id in w.journal && Recorded(w.store.jobs[id], w.journal[id]) == Owed(w.store.jobs[id])
  {
    LedgerOverRuns(calls, id);
    RunLeavesNoBlank(START, calls);
  }
}
