/**
 When a schedule fires next. Instants are nanoseconds since Go's zero time; a cron
 expression is read on a wall clock at a fixed offset from UTC.
 */
module Cron {
  import opened Jobs
  import opened Division
  import opened Calendar
  import F = CronField

  const MINUTE := 60_000_000_000
  const HOUR := 3_600_000_000_000
  const DAY := 86_400_000_000_000
  const MAX_SCAN := 5 * 366 * 24 * 60

  datatype CronSchedule = CronSchedule(
    minute: set<int>,
    hour: set<int>,
    dom: set<int>,
    month: set<int>,
    dow: set<int>,
    domStar: bool,
    dowStar: bool,
    offset: int)

  // -------------------------------------------------------------------- fields

  const MINUTES := F.Bounds(0, 59, false)
  const HOURS := F.Bounds(0, 23, false)
  const DAYS := F.Bounds(1, 31, false)
  const MONTHS := F.Bounds(1, 12, false)
  const WEEKDAYS := F.Bounds(0, 7, true)

  ghost predicate Within(bits: set<int>, b: F.Bounds) {
    (exists v :: v in bits) && forall v | v in bits :: F.InField(v, b)
  }

  ghost predicate Full(bits: set<int>, b: F.Bounds) {
    forall v :: v in bits <==> F.InField(v, b)
  }

  /** What parsing leaves: every field allows something, and a star allows everything. */
  ghost predicate Usable(s: CronSchedule) {
    && Within(s.minute, MINUTES) && Within(s.hour, HOURS) && Within(s.dom, DAYS)
    && Within(s.month, MONTHS) && Within(s.dow, WEEKDAYS)
    && (s.domStar ==> Full(s.dom, DAYS)) && (s.dowStar ==> Full(s.dow, WEEKDAYS))
  }

  method ParseOne(tok: string, b: F.Bounds) returns (r: F.Outcome<set<int>>)
    requires F.Sensible(b)
    ensures r.Fine? <==> F.FieldAccepted(tok, b)
    ensures r.Fine? ==> F.FieldExact(r.value, tok, b)
    ensures r.Panicked? <==> F.EndsPanicked(F.Split(tok, ','), b)
  {
    var f := new F.Field();
    var one := f.Parse(tok, b);
    r := if one.Fine? then F.Fine(f.bits) else if one.Rejected? then F.Rejected else F.Panicked;
  }

  lemma ExactIsWithin(bits: set<int>, tok: string, b: F.Bounds)
    requires F.Sensible(b) && F.FieldExact(bits, tok, b)
    ensures Within(bits, b) && (tok == "*" ==> Full(bits, b))
  {
    assert (forall v :: v !in bits) ==> bits == {};
    if tok == "*" {
      F.StarAllowsAll(bits, b);
    }
  }

  /** Five fields, each read in its own range; anything else is refused. */
  method ParseFields(fields: seq<string>, offset: int) returns (r: F.Outcome<CronSchedule>)
    ensures r.Fine? <==> |fields| == 5 && forall i | 0 <= i < 5 :: Readable(fields, i)
    ensures r.Panicked? <==> |fields| == 5 && FieldsPanic(fields)
    ensures r.Fine? ==> Usable(r.value) && Spells(fields, r.value) && r.value.offset == offset
  {
    hide F.FieldAccepted, F.FieldExact, F.EndsPanicked, Within, Full;
    if |fields| != 5 {
      return F.Rejected;
    }
    var minute := ParseOne(fields[0], MINUTES);
    assert minute.Fine? <==> Readable(fields, 0);
    if !minute.Fine? {
      FirstUnreadable(fields, 0);
      return Failed(minute);
    }
    var hour := ParseOne(fields[1], HOURS);
    assert hour.Fine? <==> Readable(fields, 1);
    if !hour.Fine? {
      FirstUnreadable(fields, 1);
      return Failed(hour);
    }
    var dom := ParseOne(fields[2], DAYS);
    assert dom.Fine? <==> Readable(fields, 2);
    if !dom.Fine? {
      FirstUnreadable(fields, 2);
      return Failed(dom);
    }
    var month := ParseOne(fields[3], MONTHS);
    assert month.Fine? <==> Readable(fields, 3);
    if !month.Fine? {
      FirstUnreadable(fields, 3);
      return Failed(month);
    }
    var dow := ParseOne(fields[4], WEEKDAYS);
    assert dow.Fine? <==> Readable(fields, 4);
    if !dow.Fine? {
      FirstUnreadable(fields, 4);
      return Failed(dow);
    }
    var s := CronSchedule(minute.value, hour.value, dom.value, month.value, dow.value,
                          fields[2] == "*", fields[4] == "*", offset);
    ExactIsWithin(s.minute, fields[0], MINUTES);
    ExactIsWithin(s.hour, fields[1], HOURS);
    ExactIsWithin(s.dom, fields[2], DAYS);
    ExactIsWithin(s.month, fields[3], MONTHS);
    ExactIsWithin(s.dow, fields[4], WEEKDAYS);
    r := F.Fine(s);
  }

  /** Minute, hour, day of the month, month, day of the week. */
  function BoundsOf(i: int): F.Bounds {
    if i == 0 then F.Bounds(0, 59, false)
    else if i == 1 then F.Bounds(0, 23, false)
    else if i == 2 then F.Bounds(1, 31, false)
    else if i == 3 then F.Bounds(1, 12, false)
    else F.Bounds(0, 7, true)
  }

  ghost predicate Readable(fields: seq<string>, i: int)
    requires 0 <= i < |fields|
  {
    F.FieldAccepted(fields[i], BoundsOf(i))
  }

  /** Field i is the first that cannot be read, and reading it panics. */
  ghost predicate PanicsFirst(fields: seq<string>, i: nat) {
    && i < |fields| && !Readable(fields, i) && (forall k | 0 <= k < i :: Readable(fields, k))
    && F.EndsPanicked(F.Split(fields[i], ','), BoundsOf(i))
  }

  ghost predicate FieldsPanic(fields: seq<string>) {
    exists i: nat :: PanicsFirst(fields, i)
  }

  lemma FirstUnreadable(fields: seq<string>, i: nat)
    requires i < |fields| && !Readable(fields, i) && forall k | 0 <= k < i :: Readable(fields, k)
    ensures FieldsPanic(fields) <==> F.EndsPanicked(F.Split(fields[i], ','), BoundsOf(i))
  {
    hide Readable, F.EndsPanicked, F.Split;
    if F.EndsPanicked(F.Split(fields[i], ','), BoundsOf(i)) {
      assert PanicsFirst(fields, i);
    }
    if FieldsPanic(fields) {
      var k: nat :| PanicsFirst(fields, k);
      assert k == i;
    }
  }

  function Failed(one: F.Outcome<set<int>>): (r: F.Outcome<CronSchedule>)
    requires !one.Fine?
    ensures !r.Fine?
  {
    if one.Rejected? then F.Rejected else F.Panicked
  }

  ghost predicate Spells(fields: seq<string>, s: CronSchedule) {
    && |fields| == 5
    && F.FieldExact(s.minute, fields[0], MINUTES) && F.FieldExact(s.hour, fields[1], HOURS)
    && F.FieldExact(s.dom, fields[2], DAYS) && F.FieldExact(s.month, fields[3], MONTHS)
    && F.FieldExact(s.dow, fields[4], WEEKDAYS)
    && (s.domStar <==> fields[2] == "*") && (s.dowStar <==> fields[4] == "*")
  }

  // ------------------------------------------------------------------ matching

  /** Go's zero time is a Monday; the Unix epoch, a Thursday, lies 62135596800 seconds on. */
  lemma WeekdaysAnchored(n: int)
    ensures Weekday(DayNumber(Date(1970, 1, 1))) == 4 && DayNumber(Date(1970, 1, 1)) * DAY == UNIX_EPOCH
    ensures Weekday(n + 1) == (Weekday(n) + 1) % 7
  {
  }

  /** The wall clock at an instant. */
  datatype Wall = Wall(day: int, hour: int, minute: int)

  function WallAt(s: CronSchedule, t: Time): (w: Wall)
    ensures 0 <= w.hour < 24 && 0 <= w.minute < 60
  {
    var local := t + s.offset;
    var rest := local % DAY;
    Wall(local / DAY, rest / HOUR, rest % HOUR / MINUTE)
  }

  /** Both days restricted means either will do; a star on one leaves it to the other. */
  predicate DayMatches(s: CronSchedule, day: int) {
    var date := DateOf(day);
    var dom := date.day in s.dom;
    var dow := Weekday(day) in s.dow;
    date.month in s.month && (if !s.domStar && !s.dowStar then dom || dow else dom && dow)
  }

  predicate Matches(s: CronSchedule, t: Time) {
    var w := WallAt(s, t);
    w.minute in s.minute && w.hour in s.hour && DayMatches(s, w.day)
  }

  predicate Aligned(s: CronSchedule, t: Time) {
    (t + s.offset) % MINUTE == 0
  }

  ghost predicate CronFires(s: CronSchedule, t: Time) {
    Aligned(s, t) && Matches(s, t)
  }

  function MinuteFloor(s: CronSchedule, t: Time): (f: Time)
    ensures f <= t < f + MINUTE
  {
    t - (t + s.offset) % MINUTE
  }

  /** How far the scan looks: five leap years' worth of days. */
  function Horizon(s: CronSchedule, t: Time): (h: Time)
    ensures h == MinuteFloor(s, t) + 1830 * DAY
  {
    MinuteFloor(s, t) + MAX_SCAN * MINUTE
  }

  /** The instant a wall reading stands for. */
  function Instant(s: CronSchedule, w: Wall): Time {
    w.day * DAY + w.hour * HOUR + w.minute * MINUTE - s.offset
  }

  /** Reading the wall clock and putting it back together drops exactly the seconds. */
  lemma RebuildFloors(s: CronSchedule, t: Time)
    ensures Instant(s, WallAt(s, t)) == MinuteFloor(s, t)
  {
    var local := t + s.offset;
    var rest := local % DAY;
    Recompose(local, DAY);
    Recompose(rest, HOUR);
    Recompose(rest % HOUR, MINUTE);
    var w := WallAt(s, t);
    var sec := rest % HOUR % MINUTE;
    assert local == (w.day * 1440 + w.hour * 60 + w.minute) * MINUTE + sec;
    Unique(local, w.day * 1440 + w.hour * 60 + w.minute, sec, MINUTE);
  }

  /** The other way: a whole wall reading is what its instant shows. */
  lemma WallRoundTrip(s: CronSchedule, w: Wall)
    requires 0 <= w.hour < 24 && 0 <= w.minute < 60
    ensures WallAt(s, Instant(s, w)) == w && Aligned(s, Instant(s, w))
  {
    var rest := w.hour * HOUR + w.minute * MINUTE;
    var local := w.day * DAY + rest;
    Unique(local, w.day, rest, DAY);
    Unique(rest, w.hour, w.minute * MINUTE, HOUR);
    Unique(w.minute * MINUTE, w.minute, 0, MINUTE);
    Unique(local, w.day * 1440 + w.hour * 60 + w.minute, 0, MINUTE);
  }

  // ------------------------------------------------------------------ the scan

  ghost predicate NoneIn(s: CronSchedule, lo: Time, hi: Time) {
    forall u | lo < u < hi :: !CronFires(s, u)
  }

  lemma FloorAligned(s: CronSchedule, t: Time)
    ensures Aligned(s, MinuteFloor(s, t))
  {
    var local := t + s.offset;
    Recompose(local, MINUTE);
    Unique(local - local % MINUTE, local / MINUTE, 0, MINUTE);
  }

  lemma NoneUntilNextMinute(s: CronSchedule, a: Time)
    requires Aligned(s, a)
    ensures NoneIn(s, a, a + MINUTE) && Aligned(s, a + MINUTE)
  {
    forall u | a < u < a + MINUTE ensures !CronFires(s, u) {
      NoneBetween(a + s.offset, u + s.offset, MINUTE);
    }
    NextMultiple(a + s.offset, MINUTE);
  }

  /** r is the first fire strictly after t, or None when the scan's span holds none. */
  ghost predicate CronNext(s: CronSchedule, t: Time, r: Option<Time>) {
    match r
    case Some(u) => t < u <= Horizon(s, t) && CronFires(s, u) && NoneIn(s, t, u)
    case None => NoneIn(s, t, Horizon(s, t) + 1)
  }

  /** Minute by minute from the next whole one; None is the source's zero time. */
  method Next(s: CronSchedule, t: Time) returns (r: Option<Time>)
    ensures CronNext(s, t, r)
  {
    hide Matches, WallAt, Aligned, CronFires, Instant, NoneIn, DateOf, DayNumber, MinuteFloor;
    var w := WallAt(s, t);
    var u := Instant(s, Wall(DayNumber(DateOf(w.day)), w.hour, w.minute)) + MINUTE;
    RebuildFloors(s, t);
    FloorAligned(s, t);
    NoneUntilNextMinute(s, MinuteFloor(s, t));
    NoneLater(s, MinuteFloor(s, t), t, u);
    var i := 0;
    while i < MAX_SCAN
      invariant 0 <= i <= MAX_SCAN
      invariant u == MinuteFloor(s, t) + (i + 1) * MINUTE && Aligned(s, u)
      invariant NoneIn(s, t, u)
    {
      Fires(s, u);
      if Matches(s, u) {
        return Some(u);
      }
      NoneUntilNextMinute(s, u);
      NoneThrough(s, t, u, u + MINUTE);
      u := u + MINUTE;
      i := i + 1;
    }
    NoneLater(s, t, t, Horizon(s, t) + 1);
    r := None;
  }

  lemma NoneThrough(s: CronSchedule, lo: Time, mid: Time, hi: Time)
    requires NoneIn(s, lo, mid) && !CronFires(s, mid) && NoneIn(s, mid, hi)
    ensures NoneIn(s, lo, hi)
  {
  }

  lemma NoneLater(s: CronSchedule, lo: Time, from: Time, hi: Time)
    ensures NoneIn(s, lo, hi) && lo <= from ==> NoneIn(s, from, hi)
    ensures NoneIn(s, lo, hi + MINUTE - 1) ==> NoneIn(s, lo, hi)
  {
  }

  /**
   When the five fields fire: minute, hour and month allowed, and the day by whichever of its
   two fields is not a star, by either when neither is, and on any day when both are.
   */
  lemma FiresExactly(fields: seq<string>, s: CronSchedule, u: Time)
    requires Spells(fields, s)
    ensures var w := WallAt(s, u);
      var date := DateOf(w.day);
      CronFires(s, u) <==>
        && (u + s.offset) % MINUTE == 0
        && w.minute in s.minute && w.hour in s.hour && date.month in s.month
        && (fields[2] == "*" && fields[4] != "*" ==> Weekday(w.day) in s.dow)
        && (fields[2] != "*" && fields[4] == "*" ==> date.day in s.dom)
        && (fields[2] != "*" && fields[4] != "*" ==> date.day in s.dom || Weekday(w.day) in s.dow)
  {
    var w := WallAt(s, u);
    hide F.FieldExact, WallAt, DateOf, Weekday;
    if fields[2] == "*" {
      F.StarAllowsAll(s.dom, DAYS);
      assert F.InField(DateOf(w.day).day, DAYS);
    }
    if fields[4] == "*" {
      F.StarAllowsAll(s.dow, WEEKDAYS);
      assert F.InField(Weekday(w.day), WEEKDAYS);
    }
  }

  /** Five stars fire every minute. */
  lemma StarsAlwaysFire(s: CronSchedule, u: Time)
    requires Spells(["*", "*", "*", "*", "*"], s)
    ensures CronFires(s, u) <==> (u + s.offset) % MINUTE == 0
  {
    FiresExactly(["*", "*", "*", "*", "*"], s, u);
    F.StarAllowsAll(s.minute, MINUTES);
    F.StarAllowsAll(s.hour, HOURS);
    F.StarAllowsAll(s.month, MONTHS);
    hide F.FieldExact, WallAt, DateOf, Weekday;
    var w := WallAt(s, u);
    assert F.InField(w.minute, MINUTES) && F.InField(w.hour, HOURS) && F.InField(DateOf(w.day).month, MONTHS);
  }

  lemma Fires(s: CronSchedule, u: Time)
    ensures CronFires(s, u) <==> Aligned(s, u) && Matches(s, u)
  {
  }

  // ------------------------------------------------------------ when it is None

  /** Some allowed month has an allowed day in at least one year. */
  ghost predicate SomeDate(s: CronSchedule) {
    exists m, d :: m in s.month && d in s.dom && d <= LongestMonth(m)
  }

  ghost function YearAt(s: CronSchedule, t: Time): int {
    DateOf(WallAt(s, t).day).year
  }

  lemma WeekdayMatches(s: CronSchedule, year: int) returns (n: int)
    requires Usable(s) && !s.dowStar
    ensures DayMatches(s, n) && YearStart(year) <= n < YearStart(year + 1)
  {
    var m :| m in s.month;
    var w :| w in s.dow;
    assert F.InField(m, MONTHS) && F.InField(w, WEEKDAYS);
    var first := DayNumber(Date(year, m, 1));
    n := WeekdayComes(first, w);
    var date := Date(year, m, n - first + 1);
    assert DayNumber(date) == n;
    DateRoundTrip(date);
    DateInYear(date);
    assert F.InField(date.day, DAYS);
  }

  lemma DateMatches(s: CronSchedule, date: Date)
    requires Usable(s) && s.dowStar && IsDate(date) && date.month in s.month && date.day in s.dom
    ensures DayMatches(s, DayNumber(date))
  {
    DateRoundTrip(date);
    assert F.InField(Weekday(DayNumber(date)), WEEKDAYS);
  }

  lemma DateInYear(date: Date)
    requires IsDate(date)
    ensures YearStart(date.year) <= DayNumber(date) < YearStart(date.year + 1)
  {
    MonthsMeet(date.year, date.month);
    MonthsRise(date.year, date.month + 1, 13);
    YearsMeet(date.year);
  }

  /** Some allowed month has an allowed day in every year. */
  ghost predicate EveryYear(s: CronSchedule) {
    exists m, d :: m in s.month && d in s.dom && 1 <= m <= 12 && d <= MonthLength(1, m)
  }

  /** A matching day in the given year, when there is one every year. */
  lemma DayThatYear(s: CronSchedule, year: int) returns (n: int)
    requires Usable(s) && (!s.dowStar || EveryYear(s))
    ensures DayMatches(s, n) && YearStart(year) <= n < YearStart(year + 1)
  {
    hide DayMatches, YearStart;
    if !s.dowStar {
      n := WeekdayMatches(s, year);
    } else {
      var m, d :| m in s.month && d in s.dom && 1 <= m <= 12 && d <= MonthLength(1, m);
      assert F.InField(m, MONTHS) && F.InField(d, DAYS);
      var date := Date(year, m, d);
      assert d <= MonthLength(year, m);
      DateMatches(s, date);
      DateInYear(date);
      n := DayNumber(date);
    }
  }

  /** A matching day within 1829 days of today brings a fire inside the scan. */
  lemma DayFires(s: CronSchedule, t: Time, n: int) returns (u: Time)
    requires Usable(s) && DayMatches(s, n) && WallAt(s, t).day < n < WallAt(s, t).day + 1830
    ensures t < u <= Horizon(s, t) && CronFires(s, u)
  {
    hide DayMatches;
    var h :| h in s.hour;
    var m :| m in s.minute;
    assert F.InField(h, HOURS) && F.InField(m, MINUTES);
    var w := Wall(n, h, m);
    u := Instant(s, w);
    WallRoundTrip(s, w);
    RebuildFloors(s, t);
    Recompose(t + s.offset, DAY);
  }

  function LeapDay(year: int): int {
    DayNumber(Date(year, 2, 29))
  }

  /** Some leap day has an allowed minute inside the scan. */
  ghost predicate LeapDayInReach(s: CronSchedule, t: Time) {
    exists year, h, m :: IsLeap(year) && h in s.hour && m in s.minute
                      && t < Instant(s, Wall(LeapDay(year), h, m)) <= Horizon(s, t)
  }

  lemma LeapDayFires(s: CronSchedule, year: int, h: int, m: int)
    requires Usable(s) && s.dowStar && 2 in s.month && 29 in s.dom && IsLeap(year) && h in s.hour && m in s.minute
    ensures CronFires(s, Instant(s, Wall(LeapDay(year), h, m)))
  {
    hide DayMatches, DayNumber;
    assert F.InField(h, HOURS) && F.InField(m, MINUTES);
    DateMatches(s, Date(year, 2, 29));
    WallRoundTrip(s, Wall(LeapDay(year), h, m));
  }

  lemma FiresOnLeapDay(s: CronSchedule, t: Time, u: Time)
    requires Usable(s) && s.dowStar && !EveryYear(s) && CronFires(s, u) && t < u <= Horizon(s, t)
    ensures 2 in s.month && 29 in s.dom && LeapDayInReach(s, t)
  {
    hide DateOf, DayNumber;
    var w := WallAt(s, u);
    var date := DateOf(w.day);
    assert date.month in s.month && date.day in s.dom && !(date.day <= MonthLength(1, date.month));
    assert date == Date(date.year, 2, 29) && IsLeap(date.year);
    RebuildFloors(s, u);
    assert Instant(s, Wall(LeapDay(date.year), w.hour, w.minute)) == u;
  }

  lemma NextYearFires(s: CronSchedule, t: Time) returns (u: Time)
    requires Usable(s) && (!s.dowStar || EveryYear(s))
    ensures t < u <= Horizon(s, t) && CronFires(s, u)
  {
    hide DayMatches, YearStart, Usable, EveryYear, CronFires, WallAt, DateOf, DayNumber, Horizon;
    var today := WallAt(s, t).day;
    var year := YearAt(s, t);
    var n := DayThatYear(s, year + 1);
    DateInYear(DateOf(today));
    YearsRise(year, year + 2);
    u := DayFires(s, t, n);
  }

  /**
   When the scan comes back empty, for every schedule and instant: day of week is a star, no
   date is allowed that comes every year, and no allowed leap day lies in reach.
   */
  lemma NoneExactly(s: CronSchedule, t: Time, r: Option<Time>)
    requires Usable(s) && CronNext(s, t, r)
    ensures r.None? <==>
      s.dowStar && !EveryYear(s) && !(2 in s.month && 29 in s.dom && LeapDayInReach(s, t))
  {
    hide Usable, EveryYear, CronFires, Horizon, Instant;
    if !s.dowStar || EveryYear(s) {
      var u := NextYearFires(s, t);
      assert r.None? ==> NoneIn(s, t, Horizon(s, t) + 1);
    } else if 2 in s.month && 29 in s.dom && LeapDayInReach(s, t) {
      var year, h, m :| IsLeap(year) && h in s.hour && m in s.minute
                        && t < Instant(s, Wall(LeapDay(year), h, m)) <= Horizon(s, t);
      LeapDayFires(s, year, h, m);
      assert r.None? ==> NoneIn(s, t, Horizon(s, t) + 1);
    } else if r.Some? {
      FiresOnLeapDay(s, t, r.value);
    }
  }

  /** With a leap year among the next four, its leap day is in reach. */
  lemma LeapAheadInReach(s: CronSchedule, t: Time)
    requires Usable(s) && LeapAhead(YearAt(s, t))
    ensures LeapDayInReach(s, t)
  {
    hide DateOf, YearStart, DayNumber, WallAt, LeapAhead, Instant, Horizon;
    var today := WallAt(s, t).day;
    DateInYear(DateOf(today));
    var year := SoonLeapDay(YearAt(s, t));
    YearsRise(YearAt(s, t), YearAt(s, t) + 5);
    var h :| h in s.hour;
    var m :| m in s.minute;
    SoonEnough(s, t, LeapDay(year), h, m);
  }

  lemma SoonLeapDay(year: int) returns (leap: int)
    requires LeapAhead(year)
    ensures IsLeap(leap) && YearStart(year + 1) <= LeapDay(leap) < YearStart(year + 5)
  {
    hide YearStart, DayNumber;
    leap := if IsLeap(year + 1) then year + 1 else if IsLeap(year + 2) then year + 2
            else if IsLeap(year + 3) then year + 3 else year + 4;
    DateInYear(Date(leap, 2, 29));
    YearsRise(year + 1, leap);
    YearsRise(leap + 1, year + 5);
  }

  lemma SoonEnough(s: CronSchedule, t: Time, n: int, h: int, m: int)
    requires Usable(s) && WallAt(s, t).day < n < WallAt(s, t).day + 1830 && h in s.hour && m in s.minute
    ensures t < Instant(s, Wall(n, h, m)) <= Horizon(s, t)
  {
    assert F.InField(h, HOURS) && F.InField(m, MINUTES);
    RebuildFloors(s, t);
    Recompose(t + s.offset, DAY);
  }

  /** Then the scan is empty exactly when day of week is a star and no allowed date exists in any year. */
  lemma NoneIff(s: CronSchedule, t: Time, r: Option<Time>)
    requires Usable(s) && CronNext(s, t, r) && LeapAhead(YearAt(s, t))
    ensures r.None? <==> s.dowStar && !SomeDate(s)
  {
    NoneExactly(s, t, r);
    LeapAheadInReach(s, t);
    hide LeapDayInReach, CronNext, YearAt;
    DatesSplit(s);
  }

  lemma DatesSplit(s: CronSchedule)
    requires Usable(s)
    ensures SomeDate(s) <==> EveryYear(s) || (2 in s.month && 29 in s.dom)
  {
    if SomeDate(s) {
      var m, d :| m in s.month && d in s.dom && d <= LongestMonth(m);
      assert F.InField(m, MONTHS);
      assert d <= MonthLength(1, m) || (m == 2 && d == 29);
    }
    if EveryYear(s) {
      var m, d :| m in s.month && d in s.dom && 1 <= m <= 12 && d <= MonthLength(1, m);
      assert d <= LongestMonth(m);
    }
    assert 29 <= LongestMonth(2);
  }

  /** Midnight on every February 29, UTC. */
  const LEAP_NIGHTS := CronSchedule({0}, {0}, {29}, {2}, {0, 1, 2, 3, 4, 5, 6}, false, true, 0)

  /** From March 2096 its next fire is in 2104, past the scan: the date exists and Next finds none. */
  lemma CenturyWithoutLeapDay(s: CronSchedule, t: Time, r: Option<Time>)
    requires s == LEAP_NIGHTS && t == DayNumber(Date(2096, 3, 1)) * DAY && CronNext(s, t, r)
    ensures Usable(s) && SomeDate(s) && r.None?
    ensures t < LeapDay(2104) * DAY && CronFires(s, LeapDay(2104) * DAY)
  {
    LeapNightsUsable(s);
    LeapNightOf2104(s, t);
    NoneExactly(s, t, r);
    OutOfReach(s, t);
    hide LeapDayInReach, CronNext, Usable, EveryYear, SomeDate, CronFires, DayNumber;
  }

  lemma LeapNightOf2104(s: CronSchedule, t: Time)
    requires s == LEAP_NIGHTS && t == DayNumber(Date(2096, 3, 1)) * DAY && Usable(s)
    ensures t < LeapDay(2104) * DAY && CronFires(s, LeapDay(2104) * DAY)
  {
    LeapDayFires(s, 2104, 0, 0);
    assert Instant(s, Wall(LeapDay(2104), 0, 0)) == LeapDay(2104) * DAY;
    hide CronFires, Usable;
  }

  lemma OutOfReach(s: CronSchedule, t: Time)
    requires s == LEAP_NIGHTS && t == DayNumber(Date(2096, 3, 1)) * DAY
    ensures !LeapDayInReach(s, t)
  {
    hide DayNumber;
    forall year, h, m | IsLeap(year) && h in s.hour && m in s.minute
      ensures !(t < Instant(s, Wall(LeapDay(year), h, m)) <= Horizon(s, t))
    {
      NoLeapDayNear(year);
    }
  }

  lemma NoLeapDayNear(year: int)
    requires IsLeap(year)
    ensures LeapDay(year) < DayNumber(Date(2096, 3, 1)) || LeapDay(year) > DayNumber(Date(2096, 3, 1)) + 1830
  {
    if year <= 2096 {
      YearsRise(year, 2096);
    } else {
      assert year >= 2104;
      YearsRise(2104, year);
    }
  }

  lemma LeapNightsUsable(s: CronSchedule)
    requires s == LEAP_NIGHTS
    ensures Usable(s) && SomeDate(s) && !EveryYear(s)
  {
    assert 0 in s.minute && 0 in s.hour && 29 in s.dom && 2 in s.month && 0 in s.dow;
    assert 29 <= LongestMonth(2);
  }

  // -------------------------------------------------------------------- @every

  ghost predicate EveryNext(d: int, t: Time, u: Time)
    requires d > 0
  {
    t < u && u % d == 0 && forall v | t < v < u :: v % d != 0
  }

  lemma FirstMultiple(d: int, t: Time, u: Time)
    requires d > 0 && u % d == 0 && u - d <= t < u
    ensures EveryNext(d, t, u)
  {
    forall v | t < v < u ensures v % d != 0 {
      SameRemainder(u - d, d, d);
      Unique(d, 1, 0, d);
      NoneBetween(u - d, v, d);
    }
  }

  /** The least multiple of d, counted from Go's zero time, strictly after t. */
  method EveryAfter(d: int, t: Time) returns (next: Time)
    requires d > 0
    ensures EveryNext(d, t, next)
  {
    Recompose(t, d);
    Multiple(t / d, d);
    NextMultiple(t / d * d, d);
    next := t / d * d + d;
    // already after t, so the source's loop that would add d again never runs
    FirstMultiple(d, t, next);
  }

  /** The Unix epoch, counted from Go's zero time. */
  const UNIX_EPOCH := 62_135_596_800 * 1_000_000_000

  /** The fires fall on Unix-epoch multiples exactly when the interval divides the offset between the two. */
  lemma UnixAlignedIff(d: int, t: Time, u: Time)
    requires d > 0 && EveryNext(d, t, u)
    ensures (u - UNIX_EPOCH) % d == 0 <==> UNIX_EPOCH % d == 0
  {
    ShiftedMultiple(u, UNIX_EPOCH, d);
  }

  /** Seven seconds is such an interval: its fires are never Unix-aligned. */
  lemma SevenSecondsDrift(t: Time, u: Time)
    requires EveryNext(7_000_000_000, t, u)
    ensures (u - UNIX_EPOCH) % 7_000_000_000 != 0
  {
  }
}
