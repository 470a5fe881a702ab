/**
 Runs of the store with a journal beside it: for each job, the claims handed out
 since it was inserted or last redriven, each with the attempt it carried and how
 it ended.

 The journal is what the safety claims are about. The fence says which attempt
 numbers a claim can carry; the ledger says how many errors a row can hold; the
 ceiling says how often a job can be claimed.
 */
module Journal {
  import opened Jobs
  import opened JobStore

  datatype End = Open | AsCompleted | AsDead | AsCancelled | AsRetried | AsRequeued | AsSnoozed
  {
    /** Ends that spend the attempt; a snooze gives it back. */
    predicate Spends() {
      !Open? && !AsSnoozed?
    }

    /** Ends after which the job waits to be claimed again. */
    predicate Returns() {
      AsRetried? || AsRequeued? || AsSnoozed?
    }

    /** Ends that have an error to record. */
    predicate Errs() {
      AsDead? || AsCancelled? || AsRetried? || AsRequeued?
    }
  }

  /** noted says the error of this claim reached the row's errors. */
  datatype Claim = Claim(attempt: int, end: End, noted: bool)

  /** base is how many errors the row held when this span began. */
  datatype History = History(base: nat, claims: seq<Claim>)

  /** What a claim can be counted as. */
  datatype Kind = Spent | Noted | Blank | Snoozed | Requeued | Finished

  predicate Is(c: Claim, k: Kind) {
    match k
    case Spent => c.end.Spends()
    case Noted => c.noted
    case Blank => c.end.Errs() && !c.noted
    case Snoozed => c.end.AsSnoozed?
    case Requeued => c.end.AsRequeued?
    case Finished => c.end.AsCompleted?
  }

  /** How many claims are of kind k. */
  function Tally(claims: seq<Claim>, k: Kind): nat {
    if claims == [] then 0
    else Tally(claims[..|claims| - 1], k) + if Is(claims[|claims| - 1], k) then 1 else 0
  }

  function EndOf(outcome: Outcome, requeue: bool): End {
    match outcome
    case Complete => AsCompleted
    case Die(_) => AsDead
    case Cancel(_) => AsCancelled
    case Retry(_, _) => if requeue then AsRequeued else AsRetried
    case Snooze(_) => AsSnoozed
  }

  predicate Documents(outcome: Outcome) {
    DetailOf(outcome).Some?
  }

  /** The history once e has happened to the row. */
  function HistoryAfter(h: History, row: Row, e: Event, requeue: bool): History {
    match e
    case Claimed(_) => h.(claims := h.claims + [Claim(Evolve(row, e).attempt, Open, false)])
    case Ended(outcome, _) =>
      if h.claims == [] then h
      else
        var n := |h.claims| - 1;
        var last := h.claims[n].(end := EndOf(outcome, requeue), noted := Documents(outcome));
        h.(claims := h.claims[..n] + [last])
    case Redriven(_) => History(|row.errors|, [])
    case _ => h
  }

  // -------------------------------------------------------------- invariant

  /** The attempt a row shows once this claim has ended; an open claim shows its own. */
  function Left(c: Claim): int {
    if c.end.AsSnoozed? then c.attempt - 1 else c.attempt
  }

  ghost predicate ClaimsInOrder(claims: seq<Claim>) {
    && (claims != [] ==> claims[0].attempt == 1)
    && (forall i, j | 0 <= i < j < |claims| && j == i + 1 :: claims[j].attempt == Left(claims[i]) + 1)
    && (forall j | 0 <= j < |claims| - 1 :: claims[j].end.Returns())
    && (forall j | 0 <= j < |claims| :: claims[j].noted ==> claims[j].end.Errs())
  }

  /** How the last claim's end shows in the row's state. */
  ghost predicate EndShows(state: State, end: End) {
    match end
    case Open => state.Running?
    case AsCompleted => state.Completed?
    case AsDead => state.Dead? || state.Cancelled?
    case AsCancelled => state.Cancelled?
    case AsRetried => state.Waiting() || state.Cancelled?
    case AsRequeued => state.Waiting() || state.Cancelled?
    case AsSnoozed => state.Waiting() || state.Cancelled?
  }

  ghost predicate Consistent(row: Row, h: History) {
    && ClaimsInOrder(h.claims)
    && (if h.claims == []
        then (row.state.Waiting() || row.state.Cancelled?) && row.attempt == 0
        else EndShows(row.state, Last(h).end) && row.attempt == Left(Last(h)))
    && |row.errors| == h.base + Tally(h.claims, Noted)
  }

  /** Running iff leased, finalized iff terminal, and the ceiling every insert sets. */
  ghost predicate Shaped(row: Row) {
    && (row.state.Running? <==> row.leasedUntil.Some?)
    && (row.state.Terminal() <==> row.finalizedAt.Some?)
    && row.maxAttempts == MAX_ATTEMPTS
  }

  lemma EventKeepsShape(row: Row, e: Event)
    requires Shaped(row) && Allowed(row, e)
    ensures Shaped(Evolve(row, e))
  {
  }

  function Last(h: History): Claim
    requires h.claims != []
  {
    h.claims[|h.claims| - 1]
  }

  lemma TallySnoc(claims: seq<Claim>, c: Claim, k: Kind)
    ensures Tally(claims + [c], k) == Tally(claims, k) + if Is(c, k) then 1 else 0
  {
  }

  lemma {:induction false} FirstAttempts(claims: seq<Claim>, j: nat)
    requires ClaimsInOrder(claims) && j < |claims|
    ensures claims[j].attempt >= 1
    decreases j
  {
    if j > 0 { FirstAttempts(claims, j - 1); }
  }

  lemma ExtendInOrder(claims: seq<Claim>, n: nat, c: Claim)
    requires ClaimsInOrder(claims) && n <= |claims|
    requires n > 0 ==> claims[n - 1].end.Returns()
    requires c.attempt == 1 + (if n == 0 then 0 else Left(claims[n - 1]))
    requires c.noted ==> c.end.Errs()
    ensures ClaimsInOrder(claims[..n] + [c])
  {
  }

  lemma HistoryGrows(h: History, c: Claim)
    requires ClaimsInOrder(h.claims) && !c.noted
    requires h.claims != [] ==> Last(h).end.Returns()
    requires c.attempt == 1 + (if h.claims == [] then 0 else Left(Last(h)))
    ensures ClaimsInOrder(h.claims + [c])
    ensures Tally(h.claims + [c], Noted) == Tally(h.claims, Noted)
  {
    ExtendInOrder(h.claims, |h.claims|, c);
    assert h.claims[..|h.claims|] == h.claims;
    TallySnoc(h.claims, c, Noted);
  }

  lemma ClaimKeeps(row: Row, h: History, until: Time)
    requires Consistent(row, h) && row.state.Waiting()
    ensures Consistent(Evolve(row, Claimed(until)), HistoryAfter(h, row, Claimed(until), false))
  {
    HistoryGrows(h, Claim(row.attempt + 1, Open, false));
  }

  lemma EndNotes(row: Row, h: History, outcome: Outcome, now: Time, c: Claim)
    requires Consistent(row, h) && row.state.Running? && c.noted == Documents(outcome)
    ensures |Finish(row, outcome, now).errors| == h.base + Tally(h.claims[..|h.claims| - 1] + [c], Noted)
  {
  }

  lemma EndShown(row: Row, outcome: Outcome, now: Time, requeue: bool, c: Claim)
    requires row.attempt == c.attempt >= 1 && row.state.Running?
    requires c.end == EndOf(outcome, requeue)
    ensures EndShows(Finish(row, outcome, now).state, c.end)
    ensures Finish(row, outcome, now).attempt == Left(c)
  {
  }

  lemma EndKeeps(row: Row, h: History, outcome: Outcome, now: Time, requeue: bool)
    requires Consistent(row, h) && row.state.Running?
    ensures Consistent(Evolve(row, Ended(outcome, now)), HistoryAfter(h, row, Ended(outcome, now), requeue))
  {
    var n := |h.claims| - 1;
    var c := Last(h).(end := EndOf(outcome, requeue), noted := Documents(outcome));
    FirstAttempts(h.claims, n);
    ExtendInOrder(h.claims, n, c);
    EndNotes(row, h, outcome, now, c);
    EndShown(row, outcome, now, requeue, c);
    var after := HistoryAfter(h, row, Ended(outcome, now), requeue);
    assert after == History(h.base, h.claims[..n] + [c]);
    assert Last(after) == c;
  }

  /** Every event a row can undergo keeps it consistent with its history. */
  lemma EventKeeps(row: Row, h: History, e: Event, requeue: bool)
    requires Consistent(row, h) && Allowed(row, e)
    ensures Consistent(Evolve(row, e), HistoryAfter(h, row, e, requeue))
  {
    match e
    case Claimed(until) => ClaimKeeps(row, h, until);
    case Ended(outcome, now) => EndKeeps(row, h, outcome, now, requeue);
    case _ =>
  }

  // ------------------------------------------------------------------- runs

  datatype World = World(store: Store, journal: map<int, History>)

  const START := World(EMPTY, map[])

  ghost predicate Inv(w: World) {
    && WellFormed(w.store)
    && w.journal.Keys == w.store.jobs.Keys
    && forall id | id in w.store.jobs ::
         Shaped(w.store.jobs[id]) && Consistent(w.store.jobs[id], w.journal[id])
  }

  ghost function JournalAfter(w: World, op: Op, now: Time): map<int, History> {
    map id | id in Apply(w.store, op, now).jobs ::
      if id in w.store.jobs && id in w.journal
      then HistoryAfter(w.journal[id], w.store.jobs[id], EventFor(w.store, op, now, id), op.RequeueOp?)
      else History(0, [])
  }

  ghost function Advance(w: World, op: Op, now: Time): World {
    World(Apply(w.store, op, now), JournalAfter(w, op, now))
  }

  datatype Call = Call(op: Op, now: Time)

  /** Any calls at all, at any clock readings. */
  ghost function Run(w: World, calls: seq<Call>): World
    decreases |calls|
  {
    if calls == [] then w else Run(Advance(w, calls[0].op, calls[0].now), calls[1..])
  }

  lemma AdvanceKeeps(w: World, op: Op, now: Time)
    requires Inv(w)
    ensures Inv(Advance(w, op, now))
  {
    ApplyIsRowwise(w.store, op, now);
    var t := Apply(w.store, op, now);
    forall id | id in t.jobs ensures Shaped(t.jobs[id]) && Consistent(t.jobs[id], JournalAfter(w, op, now)[id]) {
      if id in w.store.jobs {
        EventKeepsShape(w.store.jobs[id], EventFor(w.store, op, now, id));
        EventKeeps(w.store.jobs[id], w.journal[id], EventFor(w.store, op, now, id), op.RequeueOp?);
      }
    }
  }

  lemma {:induction false} RunKeeps(w: World, calls: seq<Call>)
    requires Inv(w)
    ensures Inv(Run(w, calls))
    decreases |calls|
  {
    if calls != [] {
      AdvanceKeeps(w, calls[0].op, calls[0].now);
      RunKeeps(Advance(w, calls[0].op, calls[0].now), calls[1..]);
    }
  }
}
