/**
 The proleptic Gregorian calendar. Days count from January 1 of year 1, a Monday, which
 is also where Go's zero time lies; earlier days are negative.
 */
module Calendar {
  import opened Division

  predicate IsLeap(year: int) {
    year % 4 == 0 && (year % 100 != 0 || year % 400 == 0)
  }

  function YearLength(year: int): int {
    if IsLeap(year) then 366 else 365
  }

  /** The number of January 1 of the year. */
  function YearStart(year: int): int {
    365 * (year - 1) + (year - 1) / 4 - (year - 1) / 100 + (year - 1) / 400
  }

  lemma Quotient(n: int, step: int)
    requires step > 1
    ensures n / step == (n - 1) / step + if n % step == 0 then 1 else 0
  {
    Recompose(n, step);
    if n % step == 0 {
      Distributes(n / step, 1, step);
      Unique(n - 1, n / step - 1, step - 1, step);
    } else {
      Unique(n - 1, n / step, n % step - 1, step);
    }
  }

  /** Years follow on without gap or overlap. */
  lemma YearsMeet(year: int)
    ensures YearStart(year + 1) == YearStart(year) + YearLength(year)
  {
    Quotient(year, 4);
    Quotient(year, 100);
    Quotient(year, 400);
  }

  lemma {:induction false} YearsRise(a: int, b: int)
    requires a <= b
    ensures YearStart(a) + 365 * (b - a) <= YearStart(b) <= YearStart(a) + 366 * (b - a)
    decreases b - a
  {
    if a < b {
      YearsRise(a, b - 1);
      YearsMeet(b - 1);
    }
  }

  function MonthLength(year: int, month: int): (days: int)
    requires 1 <= month <= 12
    ensures 28 <= days <= LongestMonth(month)
  {
    if month == 2 then (if IsLeap(year) then 29 else 28)
    else if month == 4 || month == 6 || month == 9 || month == 11 then 30
    else 31
  }

  /** The most days a month has in any year. */
  function LongestMonth(month: int): int {
    if month == 2 then 29
    else if month == 4 || month == 6 || month == 9 || month == 11 then 30
    else 31
  }

  /** Days of the year before the month; month 13 is the end of the year. */
  function MonthStart(year: int, month: int): (days: int)
    requires 1 <= month <= 13
    ensures month == 1 ==> days == 0
    ensures month == 13 ==> days == YearLength(year)
    ensures 28 * (month - 1) <= days <= 31 * (month - 1)
  {
    var leap := if IsLeap(year) then 1 else 0;
    if month == 1 then 0
    else if month == 2 then 31
    else leap + [59, 90, 120, 151, 181, 212, 243, 273, 304, 334, 365][month - 3]
  }

  lemma MonthsMeet(year: int, month: int)
    requires 1 <= month <= 12
    ensures MonthStart(year, month + 1) == MonthStart(year, month) + MonthLength(year, month)
  {
  }

  datatype Date = Date(year: int, month: int, day: int)

  predicate IsDate(d: Date) {
    1 <= d.month <= 12 && 1 <= d.day <= MonthLength(d.year, d.month)
  }

  function DayNumber(d: Date): int
    requires 1 <= d.month <= 12
  {
    YearStart(d.year) + MonthStart(d.year, d.month) + d.day - 1
  }

  function YearFrom(year: int, day: int): (y: int)
    requires YearStart(year) <= day
    ensures year <= y && YearStart(y) <= day < YearStart(y + 1)
    decreases day - YearStart(year)
  {
    YearsMeet(year);
    if day < YearStart(year + 1) then year else YearFrom(year + 1, day)
  }

  /** Four centuries hold a whole number of days, so the search starts within one cycle. */
  lemma CycleStart(day: int)
    ensures YearStart(400 * (day / 146097) + 1) == 146097 * (day / 146097) <= day
  {
    var c := day / 146097;
    Recompose(day, 146097);
    Unique(400 * c, 100 * c, 0, 4);
    Unique(400 * c, 4 * c, 0, 100);
    Unique(400 * c, c, 0, 400);
  }

  function YearOf(day: int): (y: int)
    ensures YearStart(y) <= day < YearStart(y + 1)
  {
    CycleStart(day);
    YearFrom(400 * (day / 146097) + 1, day)
  }

  lemma OneYear(day: int, year: int)
    requires YearStart(year) <= day < YearStart(year + 1)
    ensures YearOf(day) == year
  {
    var y := YearOf(day);
    if y < year {
      YearsRise(y + 1, year);
    } else if y > year {
      YearsRise(year + 1, y);
    }
  }

  function MonthFrom(year: int, month: int, rest: int): (m: int)
    requires 1 <= month <= 12 && MonthStart(year, month) <= rest < YearLength(year)
    ensures month <= m <= 12 && MonthStart(year, m) <= rest < MonthStart(year, m + 1)
    decreases 12 - month
  {
    if month == 12 || rest < MonthStart(year, month + 1) then month else MonthFrom(year, month + 1, rest)
  }

  lemma {:induction false} MonthsRise(year: int, a: int, b: int)
    requires 1 <= a <= b <= 13
    ensures MonthStart(year, a) <= MonthStart(year, b)
    decreases b - a
  {
  }

  lemma OneMonth(year: int, rest: int, month: int)
    requires 1 <= month <= 12 && MonthStart(year, month) <= rest < MonthStart(year, month + 1)
    ensures 0 <= rest < YearLength(year) && MonthFrom(year, 1, rest) == month
  {
    hide MonthStart;
    MonthsRise(year, 1, month);
    MonthsRise(year, month + 1, 13);
    var m := MonthFrom(year, 1, rest);
    if m < month {
      MonthsRise(year, m + 1, month);
    } else if m > month {
      MonthsRise(year, month + 1, m);
    }
  }

  /** The calendar date of a day number. */
  function DateOf(day: int): (d: Date)
    ensures IsDate(d) && DayNumber(d) == day
  {
    var year := YearOf(day);
    YearsMeet(year);
    var rest := day - YearStart(year);
    var month := MonthFrom(year, 1, rest);
    MonthsMeet(year, month);
    Date(year, month, rest - MonthStart(year, month) + 1)
  }

  /** Dates and day numbers name the same days, one for one. */
  lemma DateRoundTrip(d: Date)
    requires IsDate(d)
    ensures DateOf(DayNumber(d)) == d
  {
    hide YearStart, MonthStart, YearOf, MonthFrom;
    var day := DayNumber(d);
    MonthsMeet(d.year, d.month);
    YearsMeet(d.year);
    MonthsRise(d.year, 1, d.month);
    MonthsRise(d.year, d.month + 1, 13);
    OneYear(day, d.year);
    OneMonth(d.year, day - YearStart(d.year), d.month);
  }

  /** Sunday is 0. */
  function Weekday(day: int): (w: int)
    ensures 0 <= w < 7
  {
    (day + 1) % 7
  }

  /** Every weekday turns up within any seven days. */
  lemma WeekdayComes(day: int, w: int) returns (n: int)
    requires 0 <= w < 7
    ensures day <= n < day + 7 && Weekday(n) == w
  {
    n := day + (w - Weekday(day) + 7) % 7;
  }

  /** In these years February 29 comes round within four. */
  predicate LeapAhead(year: int) {
    IsLeap(year + 1) || IsLeap(year + 2) || IsLeap(year + 3) || IsLeap(year + 4)
  }

  lemma LeapSoon(year: int)
    requires 1900 <= year <= 2095
    ensures LeapAhead(year)
  {
  }
}
