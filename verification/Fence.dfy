/**
 The fence, over whole runs: which attempt numbers successive claims of a job
 carry, and why a holder whose claim has ended can no longer write.
 */
module Fence {
  import opened Jobs
  import opened JobStore
  import opened Journal

  /** A claim's number is one more than the attempts spent before it. */
  lemma {:induction false} AttemptCountsSpent(claims: seq<Claim>, j: nat)
    requires ClaimsInOrder(claims) && j < |claims|
    ensures claims[j].attempt == 1 + Tally(claims[..j], Spent)
    decreases j
  {
    if j > 0 {
      AttemptCountsSpent(claims, j - 1);
      assert claims[..j] == claims[..j - 1] + [claims[j - 1]];
      TallySnoc(claims[..j - 1], claims[j - 1], Spent);
    }
  }

  ghost predicate AllSnoozed(claims: seq<Claim>, i: nat, j: nat)
    requires j <= |claims|
  {
    forall k | i <= k < j :: claims[k].end.AsSnoozed?
  }

  lemma {:induction false} ClaimNumbers(claims: seq<Claim>, i: nat, j: nat)
    requires ClaimsInOrder(claims) && i < j < |claims|
    ensures claims[i].attempt <= claims[j].attempt
    ensures claims[i].attempt == claims[j].attempt <==> AllSnoozed(claims, i, j)
    decreases j
  {
    if i < j - 1 {
      ClaimNumbers(claims, i, j - 1);
    }
    assert AllSnoozed(claims, i, j) <==> AllSnoozed(claims, i, j - 1) && claims[j - 1].end.AsSnoozed?;
  }

  /** Within one span, later claims carry larger numbers unless every claim between was snoozed. */
  lemma ClaimsIncreaseOverRuns(calls: seq<Call>, id: int, i: nat, j: nat)
    ensures var w := Run(START, calls);
      id in w.journal && i < j < |w.journal[id].claims| ==>
        var claims := w.journal[id].claims;
        && claims[i].attempt <= claims[j].attempt
        && (claims[i].attempt == claims[j].attempt <==> AllSnoozed(claims, i, j))
  {
    var w := Run(START, calls);
    RunKeeps(START, calls);
    if id in w.journal && i < j < |w.journal[id].claims| {
      ClaimNumbers(w.journal[id].claims, i, j);
    }
  }

  // -------------------------------------------------------- stale holders

  ghost predicate NeverRedrives(calls: seq<Call>, id: int) {
    forall k | 0 <= k < |calls| :: calls[k].op != RedriveOp(id)
  }

  /** In w, claim i of job id has ended, and not with a snooze. */
  ghost predicate EndedFor(w: World, id: int, i: nat, attempt: int) {
    && id in w.journal && i < |w.journal[id].claims|
    && w.journal[id].claims[i].end.Spends()
    && w.journal[id].claims[i].attempt == attempt
  }

  lemma AdvanceRemembers(w: World, op: Op, now: Time, id: int, i: nat, attempt: int)
    requires Inv(w) && EndedFor(w, id, i, attempt) && op != RedriveOp(id)
    ensures EndedFor(Advance(w, op, now), id, i, attempt)
  {
    ApplyIsRowwise(w.store, op, now);
    var h := w.journal[id];
    var e := EventFor(w.store, op, now, id);
    assert HistoryAfter(h, w.store.jobs[id], e, op.RequeueOp?).claims[i] == h.claims[i];
  }

  lemma {:induction false} RunRemembers(w: World, calls: seq<Call>, id: int, i: nat, attempt: int)
    requires Inv(w) && EndedFor(w, id, i, attempt) && NeverRedrives(calls, id)
    ensures Inv(Run(w, calls)) && EndedFor(Run(w, calls), id, i, attempt)
    decreases |calls|
  {
    if calls != [] {
      assert calls[0].op != RedriveOp(id);
      AdvanceKeeps(w, calls[0].op, calls[0].now);
      AdvanceRemembers(w, calls[0].op, calls[0].now, id, i, attempt);
      RunRemembers(Advance(w, calls[0].op, calls[0].now), calls[1..], id, i, attempt);
    }
  }

  /** A lease the store will take no write under. */
  ghost predicate Fenced(s: Store, lease: Lease) {
    && (forall outcome, now :: Mark(s, lease, outcome, now).0 == s && Mark(s, lease, outcome, now).1.Some?)
    && (forall leases: seq<Lease>, d, now {:trigger ExtendLeases(s, leases + [lease], d, now)} ::
          ExtendLeases(s, leases + [lease], d, now) == ExtendLeases(s, leases, d, now))
  }

  lemma RefusedIsFenced(s: Store, lease: Lease)
    requires Refusal(s, lease).Some?
    ensures Fenced(s, lease)
  {
  }

  lemma EndedIsRefused(w: World, id: int, i: nat, attempt: int)
    requires Inv(w) && EndedFor(w, id, i, attempt)
    ensures Refusal(w.store, Lease(id, attempt)).Some?
  {
    var h := w.journal[id];
    assert Consistent(w.store.jobs[id], h);
    if w.store.jobs[id].state.Running? {
      var n := |h.claims| - 1;
      assert Last(h).end.Open?;
      ClaimNumbers(h.claims, i, n);
      assert !h.claims[i].end.AsSnoozed?;
    }
  }

  /**
   Once a claim has ended in anything but a snooze, its holder is refused by every
   Mark method and skipped by every heartbeat, store unchanged, for as long as the
   job is not redriven.
   */
  lemma StaleHolderFenced(before: seq<Call>, after: seq<Call>, id: int, i: nat, attempt: int)
    requires EndedFor(Run(START, before), id, i, attempt)
    requires NeverRedrives(after, id)
    ensures Fenced(Run(Run(START, before), after).store, Lease(id, attempt))
  {
    RunKeeps(START, before);
    RunRemembers(Run(START, before), after, id, i, attempt);
    EndedIsRefused(Run(Run(START, before), after), id, i, attempt);
    RefusedIsFenced(Run(Run(START, before), after).store, Lease(id, attempt));
  }

  /**
   A redrive does reopen the fence: the first claim after it carries the number the
   first claim of the finished span carried, so that holder's lease is accepted.
   */
  lemma RedriveReissuesFirstAttempt(w: World, id: int, redrive: Time, queue: Name, d: Time, limit: int, now: Time)
    requires Inv(w) && id in w.store.jobs && w.store.jobs[id].state.Dead?
    requires var s := Apply(w.store, RedriveOp(id), redrive); id in DueIds(s, queue, limit, now)
    ensures w.journal[id].claims != []
    ensures var s := Apply(w.store, RedriveOp(id), redrive);
      var t := Apply(s, FetchAvailableOp(queue, d, limit), now);
      Refusal(t, Lease(id, w.journal[id].claims[0].attempt)).None?
  {
    assert Consistent(w.store.jobs[id], w.journal[id]);
  }
}
