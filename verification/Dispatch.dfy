/** Rows reach the workers in the order they were claimed, round after round. */
module Dispatch {
  import opened Jobs
  import opened Pool

  /** Items in line for a worker, surplus aside. */
  function Line(f: Fetcher): seq<Item> {
    match f
    case Claiming(_, _, claimed) => claimed
    case HandingBack(_, _, claimed, _, _) => claimed
    case Releasing(_, rows, _) => rows
    case Offering(rows, _) => rows
    case _ => []
  }

  /** Numbers rise along the line and lie between lo and hi. */
  ghost predicate Rising(items: seq<Item>, lo: int, hi: int) {
    && (forall i | 0 <= i < |items| :: lo < items[i].no < hi)
    && (forall i, j | 0 <= i < j < |items| :: items[i].no < items[j].no)
  }

  ghost predicate InLine(p: Pool, last: int) {
    Rising(Line(p.fetcher), last, p.issued)
  }

  lemma {:induction false} IssuedRise(from: nat, leases: seq<Lease>, k: nat)
    requires k < |leases|
    ensures Issue(from, leases)[k].no == from + k
    decreases |leases|
  {
    if k > 0 {
      IssuedRise(from + 1, leases[1..], k - 1);
    }
  }

  lemma FetchedInLine(p: Pool, step: Step, last: int)
    requires Enabled(p, step) && step.Fetched? && InLine(p, last) && last < p.issued
    ensures InLine(After(p, step), last)
  {
    hide TrackAll, Issue;
    var items := Issue(p.issued, step.leases);
    forall k | 0 <= k < |items| ensures items[k].no == p.issued + k {
      IssuedRise(p.issued, step.leases, k);
    }
    var room := if Room(p) < 0 then 0 else Room(p);
    var taken := if |items| > room then items[..room] else items;
    assert Line(After(p, step).fetcher) == p.fetcher.claimed + taken;
    hide After, Enabled;
    RiseOn(p.fetcher.claimed, taken, last, p.issued, p.issued + |items|);
  }

  lemma RiseOn(a: seq<Item>, b: seq<Item>, lo: int, mid: int, hi: int)
    requires Rising(a, lo, mid) && lo < mid <= hi && Rising(b, mid - 1, hi)
    ensures Rising(a + b, lo, hi)
  {
  }

  /** The number of the row a step hands to a worker, if it does. */
  ghost function Handed(p: Pool, step: Step): seq<nat>
    requires Enabled(p, step)
  {
    var ws := After(p, step).workers;
    if step.HandOff? && ws[step.worker].Got? then [ws[step.worker].item.no] else []
  }

  lemma HandOffInLine(p: Pool, step: Step, last: int)
    requires Enabled(p, step) && step.HandOff? && InLine(p, last)
    ensures |Handed(p, step)| == 1 && last < Handed(p, step)[0] < p.issued
    ensures InLine(After(p, step), Handed(p, step)[0])
  {
    var rows := p.fetcher.rows;
    assert Line(After(p, step).fetcher) == rows[1..];
    assert Line(p.fetcher) == rows;
  }

  lemma OthersInLine(p: Pool, step: Step, last: int)
    requires Enabled(p, step) && Shape(p) && !step.Fetched? && !step.HandOff? && InLine(p, last)
    ensures InLine(After(p, step), last) && Handed(p, step) == []
  {
    hide Rising;
    var q := After(p, step);
    assert q.issued == p.issued;
    if step.Abandon? {
      NoLine(last, q.issued);
    } else {
      assert Line(q.fetcher) == Line(p.fetcher);
    }
  }

  lemma NoLine(lo: int, hi: int)
    ensures Rising([], lo, hi)
  {
  }

  ghost function HandedOff(p: Pool, steps: seq<Step>): seq<nat>
    requires Possible(p, steps)
    decreases |steps|
  {
    if steps == [] then [] else Handed(p, steps[0]) + HandedOff(After(p, steps[0]), steps[1..])
  }

  ghost predicate Ascending(s: seq<nat>, above: int) {
    (forall i | 0 <= i < |s| :: above < s[i]) && (forall i, j | 0 <= i < j < |s| :: s[i] < s[j])
  }

  lemma {:induction false} RunInLine(p: Pool, steps: seq<Step>, last: int)
    requires Slots(p) && Shape(p) && InLine(p, last) && last < p.issued && Possible(p, steps)
    ensures Ascending(HandedOff(p, steps), last)
    decreases |steps|
  {
    hide Slots, Shape, InLine, Enabled, After, Handed;
    if steps != [] {
      var step := steps[0];
      StepKeepsSlots(p, step);
      IssuedNeverFalls(p, step);
      if step.HandOff? {
        HandOffInLine(p, step, last);
        RunInLine(After(p, step), steps[1..], Handed(p, step)[0]);
      } else {
        if step.Fetched? {
          FetchedInLine(p, step, last);
          NoneHanded(p, step);
        } else {
          OthersInLine(p, step, last);
        }
        RunInLine(After(p, step), steps[1..], last);
      }
    }
  }

  lemma NoneHanded(p: Pool, step: Step)
    requires Enabled(p, step) && !step.HandOff?
    ensures Handed(p, step) == []
  {
  }

  lemma IssuedNeverFalls(p: Pool, step: Step)
    requires Enabled(p, step)
    ensures After(p, step).issued >= p.issued
  {
  }

  /** In every run of a pool of any size, rows are handed to workers in the order their claims returned them. */
  lemma HandOffsInClaimOrder(size: nat, steps: seq<Step>)
    requires Possible(NewPool(size), steps)
    ensures Ascending(HandedOff(NewPool(size), steps), -1)
  {
    NewPoolInv(size);
    RunInLine(NewPool(size), steps, -1);
  }
}
