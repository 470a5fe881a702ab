/**
 The published view of the queues: gauge series a scrape may read at any moment, kept in
 step with the store by one refresh at a time.
 */
module Gauges {
  import opened Jobs
  import opened JobStore
  import opened Ordering
  import opened QueueStats
  import D = MemDriver

  /** Every surviving series is there with its old or its new value, and nothing else is made up. */
  ghost predicate Between<K>(before: map<K, int>, after: map<K, int>, frame: map<K, int>) {
    && (forall k | k in before && k in after :: k in frame)
    && (forall k | k in frame :: (k in before && frame[k] == before[k]) || (k in after && frame[k] == after[k]))
  }

  /** Mid-write: all of want is out except what todo still names. */
  ghost predicate Writing<K(!new)>(before: map<K, int>, want: map<K, int>, todo: set<K>, frame: map<K, int>) {
    && (forall k :: k in frame <==> k in before || (k in want && k !in todo))
    && (forall k | k in frame :: frame[k] == if k in want && k !in todo then want[k] else before[k])
  }

  /** Mid-delete: all of want is out, and of the rest only what todo still names. */
  ghost predicate Deleting<K(!new)>(before: map<K, int>, want: map<K, int>, todo: set<K>, frame: map<K, int>) {
    && (forall k :: k in frame <==> k in want || (k in before && k in todo))
    && (forall k | k in frame :: frame[k] == if k in want then want[k] else before[k])
  }

  ghost predicate IsSet<K>(a: map<K, int>, b: map<K, int>, k: K, v: int) {
    b == a[k := v]
  }

  ghost predicate IsDelete<K>(a: map<K, int>, b: map<K, int>, k: K) {
    b == a - {k}
  }

  /** One series set, or one deleted. */
  ghost predicate Edit<K(!new)>(a: map<K, int>, b: map<K, int>) {
    (exists k, v :: IsSet(a, b, k, v)) || (exists k :: IsDelete(a, b, k))
  }

  lemma DeleteIsEdit<K(!new)>(a: map<K, int>, b: map<K, int>, k: K)
    requires b == a - {k}
    ensures Edit(a, b)
  {
    assert IsDelete(a, b, k);
  }

  /** From before to after one edit at a time, every frame on the way Between the two. */
  ghost predicate Trail<K(!new)>(before: map<K, int>, after: map<K, int>, frames: seq<map<K, int>>) {
    && frames != [] && frames[0] == before
    && (forall i, j | 0 <= i && j == i + 1 && j < |frames| :: Edit(frames[i], frames[j]))
    && (forall i | 0 <= i < |frames| :: Between(before, after, frames[i]))
  }

  lemma TrailGrows<K(!new)>(before: map<K, int>, after: map<K, int>, frames: seq<map<K, int>>, next: map<K, int>)
    requires Trail(before, after, frames) && Edit(frames[|frames| - 1], next) && Between(before, after, next)
    ensures Trail(before, after, frames + [next])
  {
  }

  lemma DeleteOne<K(!new)>(before: map<K, int>, want: map<K, int>, todo: set<K>, frame: map<K, int>, k: K)
    requires Deleting(before, want, todo, frame) && k in todo
    ensures var left := if k in want then frame else frame - {k};
      Deleting(before, want, todo - {k}, left) && Between(before, want, left)
  {
  }

  /** What history gained since it was old leads from the series then to the series now. */
  ghost predicate Since<K(!new)>(earlier: seq<map<K, int>>, history: seq<map<K, int>>, after: map<K, int>) {
    && earlier != [] && |earlier| <= |history| && history[..|earlier|] == earlier
    && Trail(earlier[|earlier| - 1], after, history[|earlier| - 1..])
  }

  lemma SinceStarts<K(!new)>(history: seq<map<K, int>>, after: map<K, int>)
    requires history != []
    ensures Since(history, history, after)
  {
  }

  lemma SinceGrows<K(!new)>(earlier: seq<map<K, int>>, history: seq<map<K, int>>, after: map<K, int>, next: map<K, int>)
    requires Since(earlier, history, after) && Edit(history[|history| - 1], next)
    requires Between(earlier[|earlier| - 1], after, next)
    ensures Since(earlier, history + [next], after)
  {
    var n := |earlier| - 1;
    TrailGrows(earlier[n], after, history[n..], next);
    assert (history + [next])[n..] == history[n..] + [next];
    assert (history + [next])[..|earlier|] == earlier;
  }

  /**
   One gauge: what a scrape reads, and the labels written by the last refresh. history is
   every state the series have been in; Set and Delete are the only writers of either.
   */
  class Gauge<K(==, !new)> {
    var series: map<K, int>
    var keys: set<K>
    ghost var history: seq<map<K, int>>

    ghost predicate Logged()
      reads this
    {
      history != [] && history[|history| - 1] == series
    }

    ghost predicate Valid()
      reads this
    {
      Logged() && keys == series.Keys
    }

    constructor (want: map<K, int>)
      ensures Valid() && series == want
    {
      series, keys := want, want.Keys;
      history := [want];
    }

    method Set(k: K, v: int)
      requires Logged()
      modifies this`series, this`history
      ensures Logged() && series == old(series)[k := v] && history == old(history) + [series]
    {
      series := series[k := v];
      history := history + [series];
    }

    method Delete(k: K)
      requires Logged()
      modifies this`series, this`history
      ensures Logged() && series == old(series) - {k} && history == old(history) + [series]
    {
      series := series - {k};
      history := history + [series];
    }

    /** Writes every wanted value, leaving the other series as they are. */
    method Write(want: map<K, int>)
      requires Valid()
      modifies this`series, this`history
      ensures Logged() && Writing(old(series), want, {}, series) && Since(old(history), history, want)
    {
      SinceStarts(history, want);
      var todo := want.Keys;
      while todo != {}
        invariant todo <= want.Keys && Logged()
        invariant Writing(old(series), want, todo, series)
        invariant Since(old(history), history, want)
      {
        hide Since;
        var k :| k in todo;
        ghost var past := history;
        Set(k, want[k]);
        assert IsSet(past[|past| - 1], series, k, want[k]);
        SinceGrows(old(history), past, want, series);
        todo := todo - {k};
      }
    }

    /** Deletes only the series that vanished. */
    method DeleteVanished(want: map<K, int>, ghost first: seq<map<K, int>>)
      requires Logged() && first != [] && keys == first[|first| - 1].Keys
      requires Writing(first[|first| - 1], want, {}, series) && Since(first, history, want)
      modifies this
      ensures Valid() && series == want && Since(first, history, want)
    {
      ghost var before := first[|first| - 1];
      var todo := keys;
      while todo != {}
        invariant todo <= keys && Logged()
        invariant Deleting(before, want, todo, series)
        invariant Since(first, history, want)
      {
        hide Since, Deleting, Between, Edit;
        var k :| k in todo;
        DeleteOne(before, want, todo, series, k);
        if k !in want {
          ghost var past := history;
          Delete(k);
          DeleteIsEdit(past[|past| - 1], series, k);
          SinceGrows(first, past, want, series);
        }
        todo := todo - {k};
      }
      assert series.Keys == want.Keys;
      keys := want.Keys;
    }
  }

  // --------------------------------------------------------- what to publish

  const PUBLISHED := {Available, Scheduled, Retryable, State.Running, Dead}

  ghost predicate Configured(queues: seq<Name>, d: Depth) {
    d.queue in queues && d.state in PUBLISHED
  }

  /** One depth for each configured queue and published state, and for whatever the reading counted. */
  ghost predicate WantedDepths(want: map<Depth, int>, queues: seq<Name>, st: Stats) {
    && (forall d: Depth :: d in want <==> Configured(queues, d) || d in st.depths)
    && (forall d | d in want :: want[d] == if d in st.depths then st.depths[d] else 0)
  }

  ghost predicate Counts(st: Stats, q: Name) {
    exists d: Depth :: d in st.depths && d.queue == q
  }

  ghost predicate WantedAges(want: map<Name, int>, queues: seq<Name>, st: Stats) {
    && (forall q :: q in want <==> q in queues || Counts(st, q) || q in st.ages)
    && (forall q | q in want :: want[q] == if q in st.ages then st.ages[q] else 0)
  }

  method SeedDepths(queues: seq<Name>) returns (depths: map<Depth, int>)
    ensures forall d: Depth :: d in depths <==> Configured(queues, d)
    ensures forall d | d in depths :: depths[d] == 0
  {
    depths := map[];
    for i := 0 to |queues|
      invariant forall d: Depth :: d in depths <==> Configured(queues[..i], d)
      invariant forall d | d in depths :: depths[d] == 0
    {
      ghost var before := depths;
      var states := PUBLISHED;
      while states != {}
        invariant states <= PUBLISHED
        invariant forall d: Depth ::
          d in depths <==> d in before || (d.queue == queues[i] && d.state in PUBLISHED - states)
        invariant forall d | d in depths :: depths[d] == 0
      {
        var state :| state in states;
        depths := depths[Depth(queues[i], state) := 0];
        states := states - {state};
      }
      assert PUBLISHED - states == PUBLISHED;
      assert queues[..i + 1] == queues[..i] + [queues[i]];
    }
    assert queues[..|queues|] == queues;
  }

  method SeedAges(queues: seq<Name>) returns (ages: map<Name, int>)
    ensures forall q :: q in ages <==> q in queues
    ensures forall q | q in ages :: ages[q] == 0
  {
    ages := map[];
    for i := 0 to |queues|
      invariant forall q :: q in ages <==> q in queues[..i]
      invariant forall q | q in ages :: ages[q] == 0
    {
      ages := ages[queues[i] := 0];
      assert queues[..i + 1] == queues[..i] + [queues[i]];
    }
    assert queues[..|queues|] == queues;
  }

  /** The maps one refresh publishes, built from the reading. */
  method Gather(queues: seq<Name>, st: Stats) returns (depths: map<Depth, int>, ages: map<Name, int>)
    ensures WantedDepths(depths, queues, st) && WantedAges(ages, queues, st)
  {
    depths := SeedDepths(queues);
    ages := SeedAges(queues);
    var todo := st.depths.Keys;
    while todo != {}
      invariant todo <= st.depths.Keys
      invariant forall d: Depth :: d in depths <==> Configured(queues, d) || d in st.depths.Keys - todo
      invariant forall d | d in depths :: depths[d] == if d in st.depths.Keys - todo then st.depths[d] else 0
      invariant forall q :: q in ages <==> q in queues || exists d: Depth :: d in st.depths.Keys - todo && d.queue == q
      invariant forall q | q in ages :: ages[q] == 0
    {
      var d :| d in todo;
      ghost var seen := st.depths.Keys - todo;
      depths := depths[d := st.depths[d]];
      if d.queue !in ages {
        ages := ages[d.queue := 0];
      }
      todo := todo - {d};
      assert st.depths.Keys - todo == seen + {d};
    }
    assert st.depths.Keys - todo == st.depths.Keys;
    ages := ages + st.ages;
  }

  // ------------------------------------------------------------- the refresher

  class Refresher {
    const queues: seq<Name>
    const depth: Gauge<Depth>
    const age: Gauge<Name>
    var lastSuccess: Option<Time>

    ghost predicate Valid()
      reads this, depth, age
    {
      depth.Valid() && age.Valid() && depth as object != age as object
    }

    /** Seeds every configured series at zero; only a real reading counts as a success. */
    constructor (queues: seq<Name>)
      ensures Valid() && lastSuccess.None? && this.queues == queues && fresh(depth) && fresh(age)
      ensures WantedDepths(depth.series, queues, Stats(map[], map[]))
      ensures WantedAges(age.series, queues, Stats(map[], map[]))
    {
      var zeros := SeedDepths(queues);
      var ages := SeedAges(queues);
      this.queues := queues;
      depth := new Gauge(zeros);
      age := new Gauge(ages);
      lastSuccess := None;
    }

    /**
     A failed reading changes nothing. A good one writes both gauges and only then deletes
     what vanished, so that a scrape between any two edits sees every surviving series.
     */
    method Refresh(reading: Option<Stats>, now: Time) returns (ok: bool)
      requires Valid()
      modifies this, depth, age
      ensures Valid() && ok == reading.Some?
      ensures !ok ==> unchanged(this, depth, age)
      ensures ok ==> lastSuccess == Some(now)
      ensures ok ==> WantedDepths(depth.series, queues, reading.value) && WantedAges(age.series, queues, reading.value)
      ensures Since(old(depth.history), depth.history, depth.series)
      ensures Since(old(age.history), age.history, age.series)
    {
      hide WantedDepths, WantedAges, Since, Writing;
      if reading.None? {
        SinceStarts(depth.history, depth.series);
        SinceStarts(age.history, age.series);
        return false;
      }
      var depths, ages := Gather(queues, reading.value);
      depth.Write(depths);
      age.Write(ages);
      depth.DeleteVanished(depths, old(depth.history));
      age.DeleteVanished(ages, old(age.history));
      lastSuccess := Some(now);
      ok := true;
    }

    /** A refresh off the in-memory store leaves exactly that store's counts and ages on show. */
    method RefreshFrom(d: D.Driver, now: Time)
      requires Valid()
      modifies this, depth, age
      ensures Valid() && lastSuccess == Some(now)
      ensures ShowsDepths(depth.series, queues, d.jobs)
      ensures ShowsAges(age.series, queues, d.jobs, now)
      ensures Since(old(depth.history), depth.history, depth.series)
      ensures Since(old(age.history), age.history, age.series)
    {
      hide WantedDepths, WantedAges, Since, Reports;
      var st := d.Stats(now);
      var _ := Refresh(Some(st), now);
      DepthsShown(depth.series, queues, st, d.jobs, now);
      AgesShown(age.series, queues, st, d.jobs, now);
    }
  }

  /** A count for every published state of a configured queue, zero included, and for any other queue with jobs. */
  ghost predicate ShowsDepths(series: map<Depth, int>, queues: seq<Name>, jobs: Table) {
    && (forall d: Depth :: d in series <==> d.state.Counted() && (d.queue in queues || Holding(jobs, d) != {}))
    && (forall d | d in series :: series[d] == |Holding(jobs, d)|)
  }

  ghost predicate HoldsCounted(jobs: Table, q: Name) {
    exists id :: id in jobs && jobs[id].queue == q && jobs[id].state.Counted()
  }

  ghost predicate NothingDue(jobs: Table, q: Name, now: Time) {
    forall id | id in jobs :: !IsDue(jobs[id], q, now)
  }

  /** How long the queue's oldest claimable job has been due, zero when it has none. */
  ghost predicate ShowsAges(series: map<Name, int>, queues: seq<Name>, jobs: Table, now: Time) {
    && (forall q :: q in series <==> q in queues || HoldsCounted(jobs, q))
    && (forall q | q in series ::
          (NothingDue(jobs, q, now) && series[q] == 0)
          || exists id :: IsOldest(jobs, q, now, id) && series[q] == now - jobs[id].scheduledAt)
  }

  lemma DepthsShown(series: map<Depth, int>, queues: seq<Name>, st: Stats, jobs: Table, now: Time)
    requires WantedDepths(series, queues, st) && Reports(st, jobs, now)
    ensures ShowsDepths(series, queues, jobs)
  {
  }

  lemma CountsMeansHolds(st: Stats, jobs: Table, q: Name)
    requires CountsDepths(st.depths, jobs)
    ensures Counts(st, q) <==> HoldsCounted(jobs, q)
  {
    if Counts(st, q) {
      var d :| d in st.depths && d.queue == q;
      SomeElement(Holding(jobs, d));
      var id :| id in Holding(jobs, d);
    }
    if HoldsCounted(jobs, q) {
      var id :| id in jobs && jobs[id].queue == q && jobs[id].state.Counted();
      assert id in Holding(jobs, Depth(q, jobs[id].state));
      assert Depth(q, jobs[id].state) in st.depths;
    }
  }

  lemma AgesShown(series: map<Name, int>, queues: seq<Name>, st: Stats, jobs: Table, now: Time)
    requires WantedAges(series, queues, st) && Reports(st, jobs, now)
    ensures ShowsAges(series, queues, jobs, now)
  {
    hide CountsDepths;
    var since :| FindsOldest(since, jobs, now) && st.ages == map q | q in since :: now - since[q];
    forall q ensures q in series <==> q in queues || HoldsCounted(jobs, q) {
      CountsMeansHolds(st, jobs, q);
      AgedIsCounted(since, jobs, now, q);
    }
    forall q | q in series
      ensures (NothingDue(jobs, q, now) && series[q] == 0)
           || exists id :: IsOldest(jobs, q, now, id) && series[q] == now - jobs[id].scheduledAt
    {
      if q in since {
        var id :| IsOldest(jobs, q, now, id) && jobs[id].scheduledAt == since[q];
        assert series[q] == now - jobs[id].scheduledAt;
      } else {
        assert NothingDue(jobs, q, now);
      }
    }
  }

  lemma AgedIsCounted(since: map<Name, Time>, jobs: Table, now: Time, q: Name)
    requires FindsOldest(since, jobs, now)
    ensures q in since ==> HoldsCounted(jobs, q)
  {
  }
}
