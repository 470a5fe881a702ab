/**
 Periodic jobs while this client leads: each turn enqueues every fire that has come due,
 moving a watermark per schedule only past fires the store took or already had.
 */
module Periodic {
  import opened Jobs
  import opened Cron
  import C = Calendar
  import S = JobStore
  import U = UniqueSlots
  import D = MemDriver
  import K = TickKey

  datatype Schedule = FiveFields(cron: CronSchedule) | Every(interval: int)

  predicate Positive(sc: Schedule) {
    sc.Every? ==> sc.interval > 0
  }

  ghost predicate FiresAt(sc: Schedule, u: Time)
    requires Positive(sc)
  {
    match sc
    case FiveFields(cron) => CronFires(cron, u)
    case Every(d) => u % d == 0
  }

  ghost predicate IsNext(sc: Schedule, t: Time, r: Option<Time>)
    requires Positive(sc)
  {
    match sc
    case FiveFields(cron) => CronNext(cron, t, r)
    case Every(d) => r.Some? && EveryNext(d, t, r.value)
  }

  method NextFire(sc: Schedule, t: Time) returns (r: Option<Time>)
    requires Positive(sc)
    ensures IsNext(sc, t, r)
  {
    hide CronNext, EveryNext;
    match sc
    case FiveFields(cron) => r := Next(cron, t);
    case Every(d) =>
      var u := EveryAfter(d, t);
      r := Some(u);
  }

  /** The next fire is the first one after t. */
  lemma FirstAfter(sc: Schedule, t: Time, r: Option<Time>, u: Time)
    requires Positive(sc) && IsNext(sc, t, r)
    ensures r.Some? ==> t < r.value && FiresAt(sc, r.value)
    ensures r.Some? && t < u < r.value ==> !FiresAt(sc, u)
  {
  }

  /** The schedule's scan can see its next fire from t. */
  ghost predicate InSight(sc: Schedule, t: Time) {
    sc.FiveFields? ==> Usable(sc.cron) && C.LeapAhead(YearAt(sc.cron, t))
  }

  lemma NoneMeansNever(sc: Schedule, t: Time, u: Time)
    requires Positive(sc) && IsNext(sc, t, None) && InSight(sc, t)
    ensures !FiresAt(sc, u)
  {
    hide CronNext, CronFires, SomeDate, Usable;
    NoneIff(sc.cron, t, None);
    NeverFires(sc.cron, u);
  }

  /** now is no further from t than the schedule's scan looks. */
  ghost predicate WithinScan(sc: Schedule, t: Time, now: Time) {
    sc.FiveFields? ==> now <= Horizon(sc.cron, t)
  }

  lemma NoneInScan(sc: Schedule, t: Time, now: Time, u: Time)
    requires Positive(sc) && IsNext(sc, t, None) && WithinScan(sc, t, now)
    ensures t < u <= now ==> !FiresAt(sc, u)
  {
    hide CronFires, Horizon;
  }

  lemma NeverFires(s: CronSchedule, u: Time)
    requires s.dowStar && !SomeDate(s)
    ensures !CronFires(s, u)
  {
  }

  // ----------------------------------------------------------------- one term

  ghost predicate Ascending(fires: seq<Time>) {
    forall i, j | 0 <= i < j < |fires| :: fires[i] < fires[j]
  }

  /** fires is every point of the schedule in (from, mark], once each and in order. */
  ghost predicate Exact(sc: Schedule, from: Time, mark: Time, fires: seq<Time>)
    requires Positive(sc)
  {
    && from <= mark
    && Ascending(fires)
    && forall u :: u in fires <==> FiresAt(sc, u) && from < u <= mark
  }

  lemma TermStarts(sc: Schedule, now: Time)
    requires Positive(sc)
    ensures Exact(sc, now, now, [])
  {
  }

  lemma OneMoreFire(sc: Schedule, from: Time, mark: Time, fires: seq<Time>, u: Time)
    requires Positive(sc) && Exact(sc, from, mark, fires) && IsNext(sc, mark, Some(u))
    ensures mark < u && Exact(sc, from, u, fires + [u])
  {
    hide FiresAt, IsNext;
    FirstAfter(sc, mark, Some(u), u);
    forall v ensures v in fires + [u] <==> FiresAt(sc, v) && from < v <= u {
      FirstAfter(sc, mark, Some(u), v);
    }
    assert forall i | 0 <= i < |fires| :: fires[i] in fires;
  }

  /** Nothing due after the mark is left, as far as the schedule can see. */
  ghost predicate CaughtUp(sc: Schedule, mark: Time, now: Time)
    requires Positive(sc)
  {
    exists r: Option<Time> :: IsNext(sc, mark, r) && (r.Some? ==> now < r.value)
  }

  /** Once caught up, the fires handled are all there have been since the term began. */
  lemma CaughtUpMeansAll(sc: Schedule, from: Time, mark: Time, fires: seq<Time>, now: Time, u: Time)
    requires Positive(sc) && Exact(sc, from, mark, fires) && CaughtUp(sc, mark, now) && mark <= now
    requires WithinScan(sc, mark, now) || InSight(sc, mark)
    ensures u in fires <==> FiresAt(sc, u) && from < u <= now
  {
    hide FiresAt, IsNext, InSight, WithinScan;
    var r: Option<Time> :| IsNext(sc, mark, r) && (r.Some? ==> now < r.value);
    if r.None? {
      if InSight(sc, mark) {
        NoneMeansNever(sc, mark, u);
      } else {
        NoneInScan(sc, mark, now, u);
      }
    } else {
      FirstAfter(sc, mark, r, u);
    }
  }

  // -------------------------------------------------------- ticks in the store

  /** A registered job; ids are distinct and not empty. */
  datatype Entry = Entry(id: string, queue: Name, kind: Name, args: Args, schedule: Schedule)

  /** Names stand for strings, one for one. */
  ghost predicate Injective(name: string -> Name) {
    forall a, b :: name(a) == name(b) ==> a == b
  }

  function Tick(name: string -> Name, e: Entry, fire: Time): InsertParams {
    InsertParams(e.kind, e.queue, e.args, Some(fire), Some(name(K.Key(e.id, fire))))
  }

  /** One row never stands for two ticks, so no fire is swallowed as another's duplicate. */
  lemma OwnRows(name: string -> Name, e: Entry, u: Time, f: Entry, v: Time, row: Row)
    requires Injective(name)
    requires row.uniqueKey == Some(name(K.Key(e.id, u))) && row.uniqueKey == Some(name(K.Key(f.id, v)))
    ensures e.id == f.id && u == v
  {
    hide K.Key;
    K.KeyOneForOne(e.id, u, f.id, v);
  }

  /** What a turn asks of the outside about each entry and fire: does the store fail, has the client stopped. */
  datatype World = World(fails: (nat, Time) -> bool, stopped: (nat, Time) -> bool)

  predicate Fails(w: World, i: nat, u: Time) {
    w.fails(i, u)
  }

  predicate Stopped(w: World, i: nat, u: Time) {
    w.stopped(i, u)
  }

  ghost predicate Smooth(w: World, i: nat) {
    forall u :: !Fails(w, i, u) && !Stopped(w, i, u)
  }

  /** A row freshly inserted for entry e's fire at u. */
  ghost predicate IsTick(row: Row, name: string -> Name, e: Entry, u: Time, now: Time) {
    && row.kind == e.kind && row.queue == e.queue && row.args == e.args
    && row.scheduledAt == u && row.uniqueKey == Some(name(K.Key(e.id, u)))
    && row.state == (if u > now then Scheduled else Available)
    && row.attempt == 0 && row.errors == []
  }

  /** Some unfinished job of e's queue and kind carries the key of its fire at u. */
  ghost predicate HasRow(t: S.Table, name: string -> Name, e: Entry, u: Time) {
    S.Occupied(t, e.queue, e.kind, Some(name(K.Key(e.id, u))))
  }

  /** What inserting the ticks of fires did to the store. */
  ghost predicate Ticked(s: S.Store, t: S.Store, name: string -> Name, e: Entry, fires: seq<Time>, now: Time) {
    && S.WellFormed(t)
    && (forall id | id in s.jobs :: id in t.jobs && t.jobs[id] == s.jobs[id])
    && (forall k | 0 <= k < |fires| :: HasRow(t.jobs, name, e, fires[k]))
    && (forall id | id in t.jobs && id !in s.jobs ::
          exists k :: 0 <= k < |fires| && IsTick(t.jobs[id], name, e, fires[k], now))
    && (U.SlotsUnique(s.jobs) ==> U.SlotsUnique(t.jobs))
  }

  lemma NoneTicked(s: S.Store, name: string -> Name, e: Entry, now: Time)
    requires S.WellFormed(s)
    ensures Ticked(s, s, name, e, [], now)
  {
  }

  lemma RowStays(s: S.Table, t: S.Table, name: string -> Name, e: Entry, u: Time)
    requires HasRow(s, name, e, u) && forall id | id in s :: id in t && t[id] == s[id]
    ensures HasRow(t, name, e, u)
  {
    var key := Some(name(K.Key(e.id, u)));
    var id :| id in s && S.LiveIn(s[id], e.queue, e.kind, key);
    assert id in t && S.LiveIn(t[id], e.queue, e.kind, key);
  }

  /** Inserting a tick takes its slot and adds no other row. */
  lemma TickTakesSlot(s: S.Store, name: string -> Name, e: Entry, u: Time, now: Time)
    requires S.WellFormed(s)
    ensures var t := S.Insert(s, Tick(name, e, u), now).0;
      && S.WellFormed(t) && HasRow(t.jobs, name, e, u)
      && (forall id | id in s.jobs :: id in t.jobs && t.jobs[id] == s.jobs[id])
      && (forall id | id in t.jobs && id !in s.jobs :: IsTick(t.jobs[id], name, e, u, now))
      && (U.SlotsUnique(s.jobs) ==> U.SlotsUnique(t.jobs))
  {
    hide K.Key, U.SlotsUnique;
    var p := Tick(name, e, u);
    var t := S.Insert(s, p, now).0;
    if U.SlotsUnique(s.jobs) {
      U.InsertKeepsSlots(s, p, now);
    }
    S.ConflictIsOccupied(s.jobs, p);
    if !S.Conflict(s.jobs, p) {
      assert S.LiveIn(t.jobs[t.nextID], e.queue, e.kind, p.uniqueKey);
    }
  }

  lemma OneMoreTicked(s: S.Store, t: S.Store, name: string -> Name, e: Entry, fires: seq<Time>, u: Time, now: Time)
    requires Ticked(s, t, name, e, fires, now)
    ensures Ticked(s, S.Insert(t, Tick(name, e, u), now).0, name, e, fires + [u], now)
  {
    hide Tick, S.Insert, HasRow, IsTick, U.SlotsUnique;
    var more := fires + [u];
    TickTakesSlot(t, name, e, u, now);
    var after := S.Insert(t, Tick(name, e, u), now).0;
    forall k | 0 <= k < |more| ensures HasRow(after.jobs, name, e, more[k]) {
      if k < |fires| {
        RowStays(t.jobs, after.jobs, name, e, fires[k]);
      }
    }
    forall id | id in after.jobs && id !in s.jobs
      ensures exists k :: 0 <= k < |more| && IsTick(after.jobs[id], name, e, more[k], now)
    {
      if id in t.jobs {
        var k :| 0 <= k < |fires| && IsTick(t.jobs[id], name, e, fires[k], now);
        assert more[k] == fires[k];
      } else {
        assert more[|fires|] == u;
      }
    }
  }

  /** Handled fires were neither refused by the store nor met by a stop. */
  ghost predicate Answered(w: World, i: nat, fires: seq<Time>) {
    forall k | 0 <= k < |fires| :: !Fails(w, i, fires[k]) && !Stopped(w, i, fires[k])
  }

  lemma AnsweredGrows(w: World, i: nat, fires: seq<Time>, u: Time)
    requires Answered(w, i, fires) && !Fails(w, i, u) && !Stopped(w, i, u)
    ensures Answered(w, i, fires + [u])
  {
  }

  lemma NoneAnswered(w: World, i: nat)
    ensures Answered(w, i, [])
  {
  }

  // ---------------------------------------------------------------- in place

  class Scheduler {
    const name: string -> Name
    const entries: seq<Entry>
    const pollInterval: Time
    const lastFire: array<Time>
    ghost var from: Time
    ghost var handled: seq<seq<Time>>

    ghost predicate Shaped()
      reads this
    {
      && lastFire.Length == |entries| == |handled| && pollInterval > 0
      && forall i | 0 <= i < |entries| :: Positive(entries[i].schedule)
    }

    ghost predicate Valid()
      reads this, lastFire
    {
      Shaped() && forall i | 0 <= i < |entries| :: Exact(entries[i].schedule, from, lastFire[i], handled[i])
    }

    constructor (name: string -> Name, entries: seq<Entry>, pollInterval: Time)
      requires pollInterval > 0 && forall i | 0 <= i < |entries| :: Positive(entries[i].schedule)
      ensures this.name == name && this.entries == entries && this.pollInterval == pollInterval
      ensures Shaped() && fresh(lastFire)
    {
      this.name, this.entries, this.pollInterval := name, entries, pollInterval;
      lastFire := new Time[|entries|];
      from := 0;
      handled := seq(|entries|, _ => []);
    }

    /** Gaining leadership starts a new term: only later fires are this leader's. */
    method BecomeLeader(now: Time)
      requires Shaped()
      modifies this, lastFire
      ensures Valid() && from == now
      ensures forall i | 0 <= i < |entries| :: lastFire[i] == now && handled[i] == []
    {
      for i := 0 to lastFire.Length
        invariant forall k | 0 <= k < i :: lastFire[k] == now
      {
        lastFire[i] := now;
      }
      from := now;
      handled := seq(|entries|, _ => []);
      forall i | 0 <= i < |entries| ensures Exact(entries[i].schedule, from, lastFire[i], handled[i]) {
        TermStarts(entries[i].schedule, now);
      }
    }

    /** Inserts one tick; a duplicate moves the watermark as well as an insert, a failed store does not. */
    method InsertTick(d: D.Driver, i: nat, fire: Time, now: Time, w: World) returns (advance: bool)
      requires i < |entries|
      modifies d
      ensures advance == !Fails(w, i, fire)
      ensures d.Model()
           == if advance then S.Insert(old(d.Model()), Tick(name, entries[i], fire), now).0 else old(d.Model())
      ensures advance && S.WellFormed(old(d.Model())) ==>
        Ticked(old(d.Model()), d.Model(), name, entries[i], [fire], now)
    {
      if S.WellFormed(d.Model()) {
        NoneTicked(d.Model(), name, entries[i], now);
        OneMoreTicked(d.Model(), d.Model(), name, entries[i], [], fire, now);
        assert [] + [fire] == [fire];
      }
      hide Ticked, Tick, K.Key;
      if Fails(w, i, fire) {
        return false;
      }
      var r := d.Insert(Tick(name, entries[i], fire), now);
      return r.Ok? || r.error == DuplicateJob;
    }

    /** Moves entry i's watermark to its next fire. */
    method Pass(i: nat, fire: Time)
      requires Valid() && i < |entries| && IsNext(entries[i].schedule, lastFire[i], Some(fire))
      modifies this`handled, lastFire
      ensures Valid() && handled == old(handled)[i := old(handled[i]) + [fire]]
      ensures lastFire[..] == old(lastFire[..])[i := fire] && old(lastFire[i]) < fire
    {
      hide Exact, IsNext;
      OneMoreFire(entries[i].schedule, from, lastFire[i], handled[i], fire);
      handled := handled[i := handled[i] + [fire]];
      lastFire[i] := fire;
    }

    /**
     Enqueues entry i's due fires in order until one fails, the client stops or none is left.
     A fire still due at the end is one the store refused or a stop met, and every fire passed
     has its own live row in the store.
     */
    method CatchUp(d: D.Driver, i: nat, now: Time, w: World) returns (fire: Option<Time>, stopped: bool)
      requires Valid() && i < |entries| && S.WellFormed(d.Model())
      modifies this`handled, lastFire, d
      ensures Valid() && handled == old(handled)[i := handled[i]] && lastFire[..] == old(lastFire[..])[i := lastFire[i]]
      ensures old(handled[i]) <= handled[i] && old(lastFire[i]) <= lastFire[i]
      ensures lastFire[i] <= now || lastFire[i] == old(lastFire[i])
      ensures IsNext(entries[i].schedule, lastFire[i], fire)
      ensures !Ahead(fire, now) ==> if stopped then Stopped(w, i, fire.value) else Fails(w, i, fire.value)
      ensures stopped ==> !Ahead(fire, now)
      ensures Answered(w, i, handled[i][|old(handled[i])|..])
      ensures Ticked(old(d.Model()), d.Model(), name, entries[i], handled[i][|old(handled[i])|..], now)
    {
      hide Exact, IsNext, Ticked, S.Insert, Answered, Tick;
      NoneAnswered(w, i);
      stopped := false;
      ghost var was, s := handled[i], d.Model();
      NoneTicked(s, name, entries[i], now);
      assert was[|was|..] == [];
      fire := NextFire(entries[i].schedule, lastFire[i]);
      while fire.Some? && fire.value <= now
        invariant Valid() && handled == old(handled)[i := handled[i]]
        invariant lastFire[..] == old(lastFire[..])[i := lastFire[i]]
        invariant was <= handled[i] && old(lastFire[i]) <= lastFire[i]
        invariant lastFire[i] <= now || lastFire[i] == old(lastFire[i])
        invariant IsNext(entries[i].schedule, lastFire[i], fire)
        invariant Answered(w, i, handled[i][|was|..])
        invariant Ticked(s, d.Model(), name, entries[i], handled[i][|was|..], now)
        decreases now - lastFire[i]
      {
        if Stopped(w, i, fire.value) {
          stopped := true;
          return;
        }
        ghost var t, passed := d.Model(), handled[i][|was|..];
        var advance := InsertTick(d, i, fire.value, now, w);
        if !advance {
          break;
        }
        OneMoreTicked(s, t, name, entries[i], passed, fire.value, now);
        AnsweredGrows(w, i, passed, fire.value);
        Pass(i, fire.value);
        assert handled[i][|was|..] == passed + [fire.value];
        fire := NextFire(entries[i].schedule, fire.value);
      }
    }

    /**
     One turn over every entry; gained is what each one handled, nexts what is next for each
     entry the turn came to. With no failure and no stop the turn catches up to now and
     sleeps until the first fire still to come, or one poll interval when there is none.
     */
    method EnqueueDue(d: D.Driver, now: Time, w: World)
      returns (wait: Time, ghost gained: seq<seq<Time>>, ghost nexts: seq<Option<Time>>)
      requires Valid() && S.WellFormed(d.Model())
      modifies this`handled, lastFire, d
      ensures Valid() && Turned(entries, old(handled), handled, old(lastFire[..]), lastFire[..], gained, nexts, now, w)
      ensures TurnTicked(old(d.Model()), d.Model(), name, entries, gained, now)
      ensures |nexts| < |entries| ==> nexts != [] && StoppedAt(w, |nexts| - 1, nexts[|nexts| - 1])
      ensures AllSmooth(w) ==>
        && |nexts| == |entries| && wait > 0
        && (forall i | 0 <= i < |entries| :: Ahead(nexts[i], now))
        && Earliest(nexts, now, wait, pollInterval)
    {
      hide Exact, IsNext, Ticked, TurnTicked, Answered, Tick, S.Insert, S.WellFormed;
      hide AllSmooth, Earliest, Soonest, Turned;
      var soonest: Option<Time> := None;
      nexts, gained := [], seq(|entries|, _ => []);
      TurnStarts(d.Model(), name, entries, gained, now);
      NoneTurned(entries, handled, lastFire[..], gained, now, w);
      NoneSoonest();
      for i := 0 to |entries|
        invariant Valid() && |nexts| == i && Soonest(soonest, nexts)
        invariant Turned(entries, old(handled), handled, old(lastFire[..]), lastFire[..], gained, nexts, now, w)
        invariant TurnTicked(old(d.Model()), d.Model(), name, entries, gained, now)
        invariant AllSmooth(w) ==> forall k | 0 <= k < i :: Ahead(nexts[k], now)
      {
        ghost var t, were, marks := d.Model(), handled, lastFire[..];
        TurnWellFormed(old(d.Model()), t, name, entries, gained, now);
        var fire, stopped := CatchUp(d, i, now, w);
        ghost var passed := handled[i][|were[i]|..];
        assert handled[i] == were[i] + passed;
        OneTurned(entries, old(handled), were, handled, old(lastFire[..]), marks, lastFire[..], gained, nexts,
                  now, w, passed, fire);
        TurnGoesOn(old(d.Model()), t, d.Model(), name, entries, gained, i, passed, now);
        gained := gained[i := passed];
        SmoothMeansAhead(w, i, fire);
        SoonestGrows(soonest, nexts, fire);
        nexts := nexts + [fire];
        if stopped {
          return 0, gained, nexts;
        }
        if fire.Some? && (soonest.None? || fire.value < soonest.value) {
          soonest := fire;
        }
      }
      EarliestFound(soonest, nexts, now, pollInterval);
      if soonest.None? {
        return pollInterval, gained, nexts;
      }
      return soonest.value - now, gained, nexts;
    }
  }

  /**
   Where a turn has got to: what every entry gained was answered for, watermarks only moved
   forward, each entry come to has its next fire in nexts, still ahead or held up, and the
   entries not come to are as they were.
   */
  ghost predicate Turned(
    entries: seq<Entry>, were: seq<seq<Time>>, handled: seq<seq<Time>>, before: seq<Time>, marks: seq<Time>,
    gained: seq<seq<Time>>, nexts: seq<Option<Time>>, now: Time, w: World)
  {
    && |entries| == |were| == |handled| == |before| == |marks| == |gained| && |nexts| <= |entries|
    && (forall i | 0 <= i < |entries| :: Positive(entries[i].schedule))
    && (forall i | 0 <= i < |entries| :: handled[i] == were[i] + gained[i] && Answered(w, i, gained[i]))
    && (forall i | 0 <= i < |entries| :: Moved(before[i], marks[i], now))
    && (forall i | 0 <= i < |nexts| ::
          IsNext(entries[i].schedule, marks[i], nexts[i]) && (Ahead(nexts[i], now) || Held(w, i, nexts[i])))
    && (forall i | |nexts| <= i < |entries| :: gained[i] == [] && marks[i] == before[i])
  }

  lemma NoneTurned(
    entries: seq<Entry>, were: seq<seq<Time>>, marks: seq<Time>, gained: seq<seq<Time>>, now: Time, w: World)
    requires |entries| == |were| == |marks| == |gained| && forall i | 0 <= i < |entries| :: gained[i] == []
    requires forall i | 0 <= i < |entries| :: Positive(entries[i].schedule)
    ensures Turned(entries, were, were, marks, marks, gained, [], now, w)
  {
    forall i | 0 <= i < |entries| ensures were[i] == were[i] + gained[i] && Answered(w, i, gained[i]) {
      NoneAnswered(w, i);
    }
  }

  lemma OneTurned(
    entries: seq<Entry>, were: seq<seq<Time>>, mid: seq<seq<Time>>, handled: seq<seq<Time>>, before: seq<Time>,
    marks: seq<Time>, later: seq<Time>, gained: seq<seq<Time>>, nexts: seq<Option<Time>>, now: Time, w: World,
    passed: seq<Time>, fire: Option<Time>)
    requires Turned(entries, were, mid, before, marks, gained, nexts, now, w)
    requires var i := |nexts|;
      && i < |entries| && |handled| == |later| == |entries|
      && handled == mid[i := mid[i] + passed] && later == marks[i := later[i]] && Moved(marks[i], later[i], now)
      && Answered(w, i, passed)
      && IsNext(entries[i].schedule, later[i], fire) && (Ahead(fire, now) || Held(w, i, fire))
    ensures |gained| == |entries| && gained[|nexts|] == []
    ensures Turned(entries, were, handled, before, later, gained[|nexts| := passed], nexts + [fire], now, w)
  {
    hide IsNext, Answered, Positive;
    assert mid[|nexts|] == were[|nexts|];
  }

  /** A watermark never goes back and never passes now. */
  ghost predicate Moved(before: Time, after: Time, now: Time) {
    before <= after && (after <= now || after == before)
  }

  /** The store refused the fire, or a stop met it. */
  ghost predicate Held(w: World, i: nat, fire: Option<Time>) {
    fire.Some? && (Fails(w, i, fire.value) || Stopped(w, i, fire.value))
  }

  lemma SmoothMeansAhead(w: World, i: nat, fire: Option<Time>)
    ensures AllSmooth(w) ==> !Held(w, i, fire)
  {
    assert AllSmooth(w) ==> Smooth(w, i);
  }

  ghost predicate StoppedAt(w: World, i: nat, fire: Option<Time>) {
    fire.Some? && Stopped(w, i, fire.value)
  }

  ghost predicate Rowed(t: S.Table, name: string -> Name, e: Entry, fires: seq<Time>) {
    forall k | 0 <= k < |fires| :: HasRow(t, name, e, fires[k])
  }

  ghost predicate OneOf(row: Row, name: string -> Name, e: Entry, fires: seq<Time>, now: Time) {
    exists k :: 0 <= k < |fires| && IsTick(row, name, e, fires[k], now)
  }

  /** Every fire handled has a live row, and every row added is one of those fires. */
  ghost predicate TurnTicked(
    s: S.Store, t: S.Store, name: string -> Name, entries: seq<Entry>, gained: seq<seq<Time>>, now: Time)
  {
    && S.WellFormed(t) && |gained| == |entries|
    && (forall id | id in s.jobs :: id in t.jobs && t.jobs[id] == s.jobs[id])
    && (forall i | 0 <= i < |entries| :: Rowed(t.jobs, name, entries[i], gained[i]))
    && (forall id | id in t.jobs && id !in s.jobs ::
          exists i :: 0 <= i < |entries| && OneOf(t.jobs[id], name, entries[i], gained[i], now))
    && (U.SlotsUnique(s.jobs) ==> U.SlotsUnique(t.jobs))
  }

  lemma TurnStarts(s: S.Store, name: string -> Name, entries: seq<Entry>, gained: seq<seq<Time>>, now: Time)
    requires S.WellFormed(s) && |gained| == |entries| && forall i | 0 <= i < |gained| :: gained[i] == []
    ensures TurnTicked(s, s, name, entries, gained, now)
  {
  }

  lemma TurnWellFormed(
    s: S.Store, t: S.Store, name: string -> Name, entries: seq<Entry>, gained: seq<seq<Time>>, now: Time)
    requires TurnTicked(s, t, name, entries, gained, now)
    ensures S.WellFormed(t)
  {
  }

  lemma TurnGoesOn(
    s: S.Store, t: S.Store, u: S.Store, name: string -> Name, entries: seq<Entry>, gained: seq<seq<Time>>,
    i: nat, fires: seq<Time>, now: Time)
    requires TurnTicked(s, t, name, entries, gained, now) && i < |entries| && gained[i] == []
    requires Ticked(t, u, name, entries[i], fires, now)
    ensures TurnTicked(s, u, name, entries, gained[i := fires], now)
  {
    hide HasRow, IsTick, U.SlotsUnique;
    var more := gained[i := fires];
    forall j | 0 <= j < |entries| ensures Rowed(u.jobs, name, entries[j], more[j]) {
      if j != i {
        forall k | 0 <= k < |gained[j]| ensures HasRow(u.jobs, name, entries[j], gained[j][k]) {
          assert Rowed(t.jobs, name, entries[j], gained[j]);
          RowStays(t.jobs, u.jobs, name, entries[j], gained[j][k]);
        }
      }
    }
    forall id | id in u.jobs && id !in s.jobs
      ensures exists j :: 0 <= j < |entries| && OneOf(u.jobs[id], name, entries[j], more[j], now)
    {
      if id in t.jobs {
        var j :| 0 <= j < |entries| && OneOf(t.jobs[id], name, entries[j], gained[j], now);
        assert j != i && more[j] == gained[j];
      } else {
        assert OneOf(u.jobs[id], name, entries[i], more[i], now);
      }
    }
  }

  ghost predicate AllSmooth(w: World) {
    forall i: nat :: Smooth(w, i)
  }

  ghost predicate Ahead(fire: Option<Time>, now: Time) {
    fire.Some? ==> now < fire.value
  }

  ghost predicate Soonest(soonest: Option<Time>, nexts: seq<Option<Time>>) {
    && (soonest.Some? ==> soonest in nexts)
    && forall i | 0 <= i < |nexts| :: nexts[i].Some? ==> soonest.Some? && soonest.value <= nexts[i].value
  }

  lemma NoneSoonest()
    ensures Soonest(None, [])
  {
  }

  lemma SoonestGrows(soonest: Option<Time>, nexts: seq<Option<Time>>, fire: Option<Time>)
    requires Soonest(soonest, nexts)
    ensures Soonest(if fire.Some? && (soonest.None? || fire.value < soonest.value) then fire else soonest,
                    nexts + [fire])
  {
  }

  /** The sleep ends at the first fire to come. */
  ghost predicate Earliest(nexts: seq<Option<Time>>, now: Time, wait: Time, pollInterval: Time) {
    && (forall i | 0 <= i < |nexts| :: nexts[i].Some? ==> now + wait <= nexts[i].value)
    && (Some(now + wait) in nexts || ((forall i | 0 <= i < |nexts| :: nexts[i].None?) && wait == pollInterval))
  }

  lemma EarliestFound(soonest: Option<Time>, nexts: seq<Option<Time>>, now: Time, pollInterval: Time)
    requires Soonest(soonest, nexts)
    ensures Earliest(nexts, now, if soonest.None? then pollInterval else soonest.value - now, pollInterval)
    ensures soonest.Some? && (forall i | 0 <= i < |nexts| :: Ahead(nexts[i], now)) ==> now < soonest.value
  {
  }
}
