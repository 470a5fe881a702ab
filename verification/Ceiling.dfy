/**
 How often a job can be claimed when outcomes come from the worker loop: the
 disposition decision, and the ceiling it puts on attempts and on claims.
 */
module Ceiling {
  import opened Jobs
  import opened JobStore
  import opened Journal
  import opened Fence

  /** What a handler, or the lease sweep, reports about an attempt. */
  datatype Verdict = Succeeded | Failed | Hopeless | NotYet(delay: nat)

  /** The decision of runJob and dispose; retryAt never schedules before now. */
  function Settle(row: Row, v: Verdict, now: Time, at: Time, detail: Detail): Outcome {
    match v
    case Succeeded => Complete
    case NotYet(delay) => Snooze(now + delay)
    case Hopeless => Cancel(Some(detail))
    case Failed =>
      if row.attempt >= row.maxAttempts then Die(Some(detail))
      else Retry(if at < now then now else at, Some(detail))
  }

  /** A pool's calls: a worker settles a row it was handed, anything else is not a Mark. */
  datatype Act =
    | Direct(op: Op)
    | Settled(row: Row, verdict: Verdict, at: Time, detail: Detail)

  function OpOf(act: Act, now: Time): Op {
    match act
    case Direct(op) => op
    case Settled(row, v, at, detail) => MarkOp(LeaseOf(row), Settle(row, v, now, at, detail))
  }

  /** handed holds the copies of rows that claims and sweeps have given out. */
  datatype Scene = Scene(world: World, handed: set<Row>)

  const OPENING := Scene(START, {})

  ghost function HandedBy(s: Store, op: Op, now: Time): set<Row> {
    match op
    case FetchAvailableOp(queue, d, limit) => set r | r in FetchAvailable(s, queue, d, limit, now).rows
    case FetchExpiredOp(d, limit) => set r | r in FetchExpired(s, d, limit, now).rows
    case _ => {}
  }

  ghost predicate Proper(sc: Scene, act: Act) {
    match act
    case Direct(op) => !op.MarkOp?
    case Settled(row, _, _, _) => row in sc.handed
  }

  ghost function Play(sc: Scene, act: Act, now: Time): Scene {
    var op := OpOf(act, now);
    Scene(Advance(sc.world, op, now), sc.handed + HandedBy(sc.world.store, op, now))
  }

  datatype Turn = Turn(act: Act, now: Time)

  ghost predicate ProperRun(sc: Scene, turns: seq<Turn>)
    decreases |turns|
  {
    turns == [] || (Proper(sc, turns[0].act) && ProperRun(Play(sc, turns[0].act, turns[0].now), turns[1..]))
  }

  ghost function PlayAll(sc: Scene, turns: seq<Turn>): Scene
    decreases |turns|
  {
    if turns == [] then sc else PlayAll(Play(sc, turns[0].act, turns[0].now), turns[1..])
  }

  /** Retries stop below the ceiling. */
  ghost predicate RetriesBelow(claims: seq<Claim>) {
    forall j | 0 <= j < |claims| :: claims[j].end.AsRetried? ==> claims[j].attempt < MAX_ATTEMPTS
  }

  ghost predicate SceneInv(sc: Scene) {
    && Inv(sc.world)
    && (forall r | r in sc.handed :: r.maxAttempts == MAX_ATTEMPTS)
    && (forall id | id in sc.world.journal :: RetriesBelow(sc.world.journal[id].claims))
  }

  lemma HandedCarryTheCeiling(w: World, op: Op, now: Time, r: Row)
    requires Inv(w) && r in HandedBy(w.store, op, now)
    ensures r.maxAttempts == MAX_ATTEMPTS
  {
  }

  lemma PlayKeepsRetriesBelow(sc: Scene, act: Act, now: Time, id: int)
    requires SceneInv(sc) && Proper(sc, act)
    requires id in sc.world.store.jobs
    ensures var op := OpOf(act, now);
      RetriesBelow(HistoryAfter(sc.world.journal[id], sc.world.store.jobs[id],
                                EventFor(sc.world.store, op, now, id), op.RequeueOp?).claims)
  {
  }

  lemma PlayKeeps(sc: Scene, act: Act, now: Time)
    requires SceneInv(sc) && Proper(sc, act)
    ensures SceneInv(Play(sc, act, now))
  {
    var op := OpOf(act, now);
    AdvanceKeeps(sc.world, op, now);
    forall r | r in HandedBy(sc.world.store, op, now) ensures r.maxAttempts == MAX_ATTEMPTS {
      HandedCarryTheCeiling(sc.world, op, now, r);
    }
    var j := JournalAfter(sc.world, op, now);
    forall id | id in j ensures RetriesBelow(j[id].claims) {
      if id in sc.world.store.jobs {
        PlayKeepsRetriesBelow(sc, act, now, id);
      }
    }
  }

  lemma {:induction false} PlayAllKeeps(sc: Scene, turns: seq<Turn>)
    requires SceneInv(sc) && ProperRun(sc, turns)
    ensures SceneInv(PlayAll(sc, turns))
    decreases |turns|
  {
    if turns != [] {
      PlayKeeps(sc, turns[0].act, turns[0].now);
      PlayAllKeeps(Play(sc, turns[0].act, turns[0].now), turns[1..]);
    }
  }

  /** No claim carries a number beyond the ceiling and the requeues before it. */
  lemma {:induction false} ClaimCeiling(claims: seq<Claim>, j: nat)
    requires ClaimsInOrder(claims) && RetriesBelow(claims) && j < |claims|
    ensures claims[j].attempt <= MAX_ATTEMPTS + Tally(claims[..j], Requeued)
    decreases j
  {
    if j > 0 {
      ClaimCeiling(claims, j - 1);
      assert claims[..j] == claims[..j - 1] + [claims[j - 1]];
      TallySnoc(claims[..j - 1], claims[j - 1], Requeued);
    }
  }

  lemma {:induction false} ReturnsParts(claims: seq<Claim>)
    requires forall j | 0 <= j < |claims| :: claims[j].end.Returns()
    ensures |claims| == Tally(claims, Spent) + Tally(claims, Snoozed)
    decreases |claims|
  {
    if claims != [] {
      ReturnsParts(claims[..|claims| - 1]);
    }
  }

  lemma ClaimsBound(claims: seq<Claim>)
    requires ClaimsInOrder(claims) && RetriesBelow(claims)
    ensures |claims| <= MAX_ATTEMPTS + Tally(claims, Snoozed) + Tally(claims, Requeued)
  {
    if claims != [] {
      var n := |claims| - 1;
      ClaimCeiling(claims, n);
      AttemptCountsSpent(claims, n);
      ReturnsParts(claims[..n]);
    }
  }

  ghost predicate UnderCeiling(row: Row, h: History) {
    && row.attempt <= MAX_ATTEMPTS + Tally(h.claims, Requeued)
    && |h.claims| <= MAX_ATTEMPTS + Tally(h.claims, Snoozed) + Tally(h.claims, Requeued)
  }

  /**
   When outcomes come from the pool, a job's attempt never passes the ceiling plus its
   requeues since the last redrive, and it is claimed at most that often plus once a snooze.
   */
  lemma AttemptCeiling(turns: seq<Turn>, id: int)
    requires ProperRun(OPENING, turns)
    ensures var w := PlayAll(OPENING, turns).world;
      id in w.store.jobs ==> id in w.journal && UnderCeiling(w.store.jobs[id], w.journal[id])
  {
    PlayAllKeeps(OPENING, turns);
    var w := PlayAll(OPENING, turns).world;
    if id in w.store.jobs {
      var claims := w.journal[id].claims;
      assert Consistent(w.store.jobs[id], w.journal[id]);
      ClaimsBound(claims);
      if claims != [] {
        ClaimCeiling(claims, |claims| - 1);
      }
    }
  }
}
