/**
 The unique key of one periodic tick: the schedule's id, a slash, and the instant written
 out as in section 5.6 of RFC 3339, in UTC, with its fraction cut to the last digit
 that is not zero.
 */
module TickKey {
  import opened Jobs
  import opened Division
  import opened Calendar
  import F = CronField

  const SECOND := 1_000_000_000
  const MINUTE := 60_000_000_000
  const HOUR := 3_600_000_000_000
  const DAY := 86_400_000_000_000

  // ------------------------------------------------------- fields in a text

  /** The first separator tells the two halves apart. */
  lemma FirstHalves(a: string, b: string, c: string, d: string, sep: char)
    requires a + [sep] + b == c + [sep] + d && sep !in a && sep !in c
    ensures a == c && b == d
  {
    F.CutJoined(a, b, sep);
    F.CutJoined(c, d, sep);
  }

  /** So does the last one. */
  lemma LastHalves(a: string, b: string, c: string, d: string, sep: char)
    requires a + [sep] + b == c + [sep] + d && sep !in b && sep !in d
    ensures a == c && b == d
  {
    var s, t := a + [sep] + b, c + [sep] + d;
    assert s[|a|] == sep && t[|c|] == sep;
    assert forall i | |c| < i < |t| :: t[i] == d[i - |c| - 1];
    assert forall i | |a| < i < |s| :: s[i] == b[i - |a| - 1];
    assert |a| == |c|;
    assert a == s[..|a|] && c == t[..|c|] && b == s[|a| + 1..] && d == t[|c| + 1..];
  }

  /** At least width digits. */
  function Padded(n: nat, width: nat): (s: string)
    ensures F.AllDigits(s) && |s| >= width && s != ""
    decreases width
  {
    if |F.Decimal(n)| >= width then F.Decimal(n) else Zeros(width - |F.Decimal(n)|) + F.Decimal(n)
  }

  function Zeros(n: nat): (s: string)
    ensures |s| == n && forall i | 0 <= i < n :: s[i] == '0'
  {
    seq(n, _ => '0')
  }

  lemma {:induction false} LeadingZeros(n: nat, s: string)
    requires F.AllDigits(s)
    ensures F.AllDigits(Zeros(n) + s) && F.Value(Zeros(n) + s) == F.Value(s)
    decreases |s|
  {
    var t := Zeros(n) + s;
    if s == "" {
      AllZeros(n);
      assert t == Zeros(n);
    } else {
      assert t[..|t| - 1] == Zeros(n) + s[..|s| - 1];
      LeadingZeros(n, s[..|s| - 1]);
    }
  }

  lemma {:induction false} AllZeros(n: nat)
    ensures F.AllDigits(Zeros(n)) && F.Value(Zeros(n)) == 0
    decreases n
  {
    if n > 0 {
      AllZeros(n - 1);
      assert Zeros(n)[..n - 1] == Zeros(n - 1);
    }
  }

  lemma PaddedValue(n: nat, width: nat)
    ensures F.Value(Padded(n, width)) == n
  {
    F.DecimalValue(n);
    hide F.Value, F.Decimal;
    if |F.Decimal(n)| < width {
      LeadingZeros(width - |F.Decimal(n)|, F.Decimal(n));
    }
  }

  lemma SamePadded(m: nat, n: nat, width: nat)
    requires Padded(m, width) == Padded(n, width)
    ensures m == n
  {
    PaddedValue(m, width);
    PaddedValue(n, width);
  }

  /** s without its last zeros. */
  function Trimmed(s: string): (r: string)
    ensures |r| <= |s| && s == r + Zeros(|s| - |r|)
    decreases |s|
  {
    if s != "" && s[|s| - 1] == '0' then
      var r := Trimmed(s[..|s| - 1]);
      assert s == s[..|s| - 1] + ['0'];
      assert Zeros(|s| - |r|) == Zeros(|s| - 1 - |r|) + ['0'];
      r
    else s
  }

  // ------------------------------------------------------------- the instant

  function YearText(year: int): string {
    if year < 0 then "-" + Padded(-year, 4) else Padded(year, 4)
  }

  function Fraction(nanos: nat): string {
    if nanos == 0 then "" else "." + Trimmed(Padded(nanos, 9))
  }

  datatype Reading = Reading(date: Date, hour: nat, minute: nat, second: nat, nanos: nat)

  function ReadingOf(t: Time): (r: Reading)
    ensures 1 <= r.date.month <= 12 && 1 <= r.date.day <= 31 && r.hour < 24 && r.minute < 60
    ensures r.second < 60 && r.nanos < SECOND
    ensures DayNumber(r.date) * DAY + r.hour * HOUR + r.minute * MINUTE + r.second * SECOND + r.nanos == t
  {
    var day, inDay := t / DAY, t % DAY;
    var hour, inHour := inDay / HOUR, inDay % HOUR;
    var minute, inMinute := inHour / MINUTE, inHour % MINUTE;
    Recompose(t, DAY);
    Recompose(inDay, HOUR);
    Recompose(inHour, MINUTE);
    Recompose(inMinute, SECOND);
    Reading(DateOf(day), hour, minute, inMinute / SECOND, inMinute % SECOND)
  }

  function SecondText(second: nat, nanos: nat): string {
    Padded(second, 2) + Fraction(nanos) + "Z"
  }

  function Clock(r: Reading): string {
    Padded(r.hour, 2) + ":" + (Padded(r.minute, 2) + ":" + SecondText(r.second, r.nanos))
  }

  function MonthText(r: Reading): string
    requires r.date.month >= 0 && r.date.day >= 0
  {
    Padded(r.date.month, 2) + "-" + (Padded(r.date.day, 2) + "T" + Clock(r))
  }

  function Stamp(t: Time): string {
    var r := ReadingOf(t);
    YearText(r.date.year) + "-" + MonthText(r)
  }

  function Key(id: string, fire: Time): string {
    id + "/" + Stamp(fire)
  }

  // -------------------------------------------------------------- one for one

  lemma FractionFits(nanos: nat)
    requires 0 < nanos < SECOND
    ensures |Padded(nanos, 9)| == 9
  {
    if |F.Decimal(nanos)| > 9 {
      DecimalLength(nanos, 9);
    }
  }

  function Power(k: nat): nat {
    if k == 0 then 1 else 10 * Power(k - 1)
  }

  lemma {:induction false} DecimalLength(n: nat, k: nat)
    requires |F.Decimal(n)| > k >= 1
    ensures n >= Power(k)
    decreases k
  {
    if k > 1 {
      DecimalLength(n / 10, k - 1);
    }
  }

  lemma SameFraction(m: nat, n: nat)
    requires 0 < m < SECOND && 0 < n < SECOND && Trimmed(Padded(m, 9)) == Trimmed(Padded(n, 9))
    ensures m == n
  {
    FractionFits(m);
    FractionFits(n);
    SamePadded(m, n, 9);
  }

  /** The text has a point exactly when there is a fraction. */
  lemma SecondShape(s: nat, m: nat)
    ensures '.' !in Padded(s, 2)
    ensures m == 0 ==> SecondText(s, m) == Padded(s, 2) + "Z" && '.' !in SecondText(s, m)
    ensures m > 0 ==> SecondText(s, m) == Padded(s, 2) + "." + (Trimmed(Padded(m, 9)) + "Z") && '.' in SecondText(s, m)
  {
    hide Trimmed;
    assert '.' !in Padded(s, 2);
    hide Padded;
    if m > 0 {
      assert SecondText(s, m)[|Padded(s, 2)|] == '.';
    }
  }

  lemma DropLast(a: string, b: string)
    requires a + "Z" == b + "Z"
    ensures a == b
  {
    assert a == (a + "Z")[..|a|] && b == (b + "Z")[..|b|];
  }

  lemma SecondsOneForOne(s: nat, m: nat, t: nat, n: nat)
    requires m < SECOND && n < SECOND && SecondText(s, m) == SecondText(t, n)
    ensures s == t && m == n
  {
    hide Padded, Trimmed, SecondText;
    SecondShape(s, m);
    SecondShape(t, n);
    if m > 0 {
      var x, y := Trimmed(Padded(m, 9)), Trimmed(Padded(n, 9));
      FirstHalves(Padded(s, 2), x + "Z", Padded(t, 2), y + "Z", '.');
      DropLast(x, y);
      SameFraction(m, n);
    } else {
      DropLast(Padded(s, 2), Padded(t, 2));
    }
    SamePadded(s, t, 2);
  }

  lemma ClockOneForOne(a: Reading, b: Reading)
    requires a.nanos < SECOND && b.nanos < SECOND && Clock(a) == Clock(b)
    ensures a == b.(date := a.date)
  {
    hide Padded;
    var x, y := SecondText(a.second, a.nanos), SecondText(b.second, b.nanos);
    FirstHalves(Padded(a.hour, 2), Padded(a.minute, 2) + ":" + x,
                Padded(b.hour, 2), Padded(b.minute, 2) + ":" + y, ':');
    FirstHalves(Padded(a.minute, 2), x, Padded(b.minute, 2), y, ':');
    SecondsOneForOne(a.second, a.nanos, b.second, b.nanos);
    SamePadded(a.hour, b.hour, 2);
    SamePadded(a.minute, b.minute, 2);
  }

  lemma MonthsOneForOne(a: Reading, b: Reading)
    requires a.date.month >= 0 && a.date.day >= 0 && b.date.month >= 0 && b.date.day >= 0
    requires a.nanos < SECOND && b.nanos < SECOND && MonthText(a) == MonthText(b)
    ensures a == b.(date := Date(a.date.year, b.date.month, b.date.day))
  {
    hide Padded, Clock;
    var x, y := Padded(a.date.day, 2) + "T" + Clock(a), Padded(b.date.day, 2) + "T" + Clock(b);
    FirstHalves(Padded(a.date.month, 2), x, Padded(b.date.month, 2), y, '-');
    FirstHalves(Padded(a.date.day, 2), Clock(a), Padded(b.date.day, 2), Clock(b), 'T');
    SamePadded(a.date.month, b.date.month, 2);
    SamePadded(a.date.day, b.date.day, 2);
    ClockOneForOne(a, b);
  }

  /** A year before year 0 starts with its sign, any other with a digit. */
  lemma YearShape(year: int, rest: string)
    ensures '-' !in Padded(Abs(year), 4)
    ensures var s := YearText(year) + "-" + rest;
      && (year >= 0 ==> s[0] != '-' && s == Padded(Abs(year), 4) + "-" + rest)
      && (year < 0 ==> s[0] == '-' && s[1..] == Padded(Abs(year), 4) + "-" + rest)
  {
  }

  function Abs(n: int): nat {
    if n < 0 then -n else n
  }

  lemma YearsOneForOne(m: int, x: string, n: int, y: string)
    requires YearText(m) + "-" + x == YearText(n) + "-" + y
    ensures m == n && x == y
  {
    hide Padded, YearText;
    YearShape(m, x);
    YearShape(n, y);
    FirstHalves(Padded(Abs(m), 4), x, Padded(Abs(n), 4), y, '-');
    SamePadded(Abs(m), Abs(n), 4);
  }

  /** Different instants have different texts. */
  lemma StampOneForOne(t: Time, u: Time)
    requires Stamp(t) == Stamp(u)
    ensures t == u
  {
    hide YearText, MonthText, DayNumber;
    var a, b := ReadingOf(t), ReadingOf(u);
    YearsOneForOne(a.date.year, MonthText(a), b.date.year, MonthText(b));
    MonthsOneForOne(a, b);
  }

  lemma NoSlash(t: Time)
    ensures '/' !in Stamp(t)
  {
    hide Padded, Trimmed, ReadingOf;
    var r := ReadingOf(t);
    assert '/' !in Trimmed(Padded(r.nanos, 9)) by {
      assert forall c | c in Trimmed(Padded(r.nanos, 9)) :: c in Padded(r.nanos, 9);
    }
    assert '/' !in Clock(r);
    assert '/' !in MonthText(r);
  }

  /** No two ticks, of one schedule or of two, share a key. */
  lemma KeyOneForOne(id: string, fire: Time, other: string, later: Time)
    requires Key(id, fire) == Key(other, later)
    ensures id == other && fire == later
  {
    hide Stamp;
    NoSlash(fire);
    NoSlash(later);
    LastHalves(id, Stamp(fire), other, Stamp(later), '/');
    StampOneForOne(fire, later);
  }

  // ------------------------------------------------------------------ the layout

  lemma FitsWidth(n: nat, width: nat)
    requires width >= 1 && n < Power(width)
    ensures |Padded(n, width)| == width
  {
    if |F.Decimal(n)| > width {
      DecimalLength(n, width);
    }
  }

  /** The digits in s[i..j] are the number n. */
  ghost predicate Shows(s: string, i: nat, j: nat, n: int) {
    i <= j <= |s| && F.AllDigits(s[i..j]) && F.Value(s[i..j]) == n
  }

  /** What follows the seconds: nothing, or a point and the nanoseconds without their last zeros; then a Z. */
  ghost predicate Tail(s: string, nanos: int) {
    if nanos == 0 then s == "Z"
    else
      && 3 <= |s| <= 11 && s[0] == '.' && s[|s| - 1] == 'Z' && s[|s| - 2] != '0'
      && var digits := s[1..|s| - 1] + Zeros(11 - |s|);
         F.AllDigits(digits) && F.Value(digits) == nanos
  }

  lemma {:induction false} TrimmedEnds(s: string)
    ensures Trimmed(s) == "" || Trimmed(s)[|Trimmed(s)| - 1] != '0'
    decreases |s|
  {
    if s != "" && s[|s| - 1] == '0' {
      TrimmedEnds(s[..|s| - 1]);
    }
  }

  /** A number that is not zero keeps some digit. */
  lemma NotAllZeros(s: string)
    requires F.AllDigits(s)
    ensures F.Value(s) > 0 ==> Trimmed(s) != ""
  {
    AllZeros(|s|);
    if Trimmed(s) == "" {
      assert s == Zeros(|s|);
    }
  }

  lemma TailOf(nanos: nat)
    requires nanos < SECOND
    ensures Tail(Fraction(nanos) + "Z", nanos)
  {
    if nanos > 0 {
      var all := Padded(nanos, 9);
      var kept := Trimmed(all);
      FractionFits(nanos);
      PaddedValue(nanos, 9);
      TrimmedEnds(all);
      NotAllZeros(all);
      hide Padded, Trimmed;
      var s := "." + kept + "Z";
      assert Fraction(nanos) + "Z" == s;
      assert s[1..|s| - 1] == kept;
      assert kept + Zeros(9 - |kept|) == all;
    }
  }

  lemma ClockLayout(r: Reading)
    requires r.hour < 100 && r.minute < 100 && r.second < 100 && r.nanos < SECOND
    ensures var s := Clock(r);
      && |s| >= 9 && s[2] == ':' && s[5] == ':'
      && Shows(s, 0, 2, r.hour) && Shows(s, 3, 5, r.minute) && Shows(s, 6, 8, r.second) && Tail(s[8..], r.nanos)
  {
    forall n: nat | n < 100 ensures |Padded(n, 2)| == 2 && F.Value(Padded(n, 2)) == n {
      FitsWidth(n, 2);
      PaddedValue(n, 2);
    }
    TailOf(r.nanos);
    hide Padded, Fraction, Tail, F.Value, F.AllDigits;
    ClockSlices(Clock(r), Padded(r.hour, 2), Padded(r.minute, 2), Padded(r.second, 2), Fraction(r.nanos));
  }

  lemma ClockSlices(s: string, h: string, m: string, sec: string, f: string)
    requires |h| == 2 && |m| == 2 && |sec| == 2 && s == h + ":" + (m + ":" + (sec + f + "Z"))
    ensures |s| == 9 + |f| && s[2] == ':' && s[5] == ':'
    ensures s[0..2] == h && s[3..5] == m && s[6..8] == sec && s[8..] == f + "Z"
  {
  }

  /** From year 0 to 9999 the text is YYYY-MM-DDTHH:MM:SS, the fraction if any, and Z. */
  lemma StampLayout(t: Time)
    requires 0 <= ReadingOf(t).date.year <= 9999
    ensures var r := ReadingOf(t);
      var s := Stamp(t);
      && |s| >= 20 && s[4] == '-' && s[7] == '-' && s[10] == 'T' && s[13] == ':' && s[16] == ':'
      && Shows(s, 0, 4, r.date.year) && Shows(s, 5, 7, r.date.month) && Shows(s, 8, 10, r.date.day)
      && Shows(s, 11, 13, r.hour) && Shows(s, 14, 16, r.minute) && Shows(s, 17, 19, r.second) && Tail(s[19..], r.nanos)
  {
    var r := ReadingOf(t);
    FitsWidth(r.date.year, 4);
    FitsWidth(r.date.month, 2);
    FitsWidth(r.date.day, 2);
    PaddedValue(r.date.year, 4);
    PaddedValue(r.date.month, 2);
    PaddedValue(r.date.day, 2);
    ClockLayout(r);
    var s := Stamp(t);
    hide Padded, Tail, Clock, ReadingOf, F.Value, F.AllDigits;
    Slices(s, Padded(r.date.year, 4), Padded(r.date.month, 2), Padded(r.date.day, 2), Clock(r));
  }

  lemma Slices(s: string, y: string, m: string, d: string, c: string)
    requires |y| == 4 && |m| == 2 && |d| == 2 && |c| >= 9 && c[2] == ':' && c[5] == ':'
    requires s == y + "-" + (m + "-" + (d + "T" + c))
    ensures |s| == 11 + |c| && s[4] == '-' && s[7] == '-' && s[10] == 'T' && s[13] == ':' && s[16] == ':'
    ensures s[0..4] == y && s[5..7] == m && s[8..10] == d
    ensures s[11..13] == c[0..2] && s[14..16] == c[3..5] && s[17..19] == c[6..8] && s[19..] == c[8..]
  {
  }
}
