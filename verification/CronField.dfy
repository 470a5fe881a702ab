/**
 One field of a cron expression: a comma list of values, ranges and steps, read into the
 set of values it allows. The source keeps the set as the bits of one word.
 */
module CronField {
  import opened Jobs
  import opened Division

  const MAX_INT64 := 0x7fff_ffff_ffff_ffff
  const MIN_INT64 := -0x8000_0000_0000_0000

  /** Two's complement: what 64-bit addition leaves. */
  function Wrap(n: int): int {
    if n > MAX_INT64 then n - 0x1_0000_0000_0000_0000 else n
  }

  // ------------------------------------------------------------------- strings

  datatype Halves = Halves(before: string, after: string, found: bool)

  /** Splits at the first sep. */
  function Cut(s: string, sep: char): (h: Halves)
    ensures sep !in h.before
    ensures h.found ==> s == h.before + [sep] + h.after
    ensures !h.found ==> s == h.before && h.after == ""
    decreases |s|
  {
    if s == "" then Halves("", "", false)
    else if s[0] == sep then Halves("", s[1..], true)
    else
      var h := Cut(s[1..], sep);
      Halves([s[0]] + h.before, h.after, h.found)
  }

  function Split(s: string, sep: char): (parts: seq<string>)
    ensures parts != [] && forall i | 0 <= i < |parts| :: sep !in parts[i]
    decreases |s|
  {
    var h := Cut(s, sep);
    if h.found then [h.before] + Split(h.after, sep) else [h.before]
  }

  function Join(parts: seq<string>, sep: char): string
    requires parts != []
  {
    if |parts| == 1 then parts[0] else parts[0] + [sep] + Join(parts[1..], sep)
  }

  lemma {:induction false} CutJoined(a: string, b: string, sep: char)
    requires sep !in a
    ensures Cut(a + [sep] + b, sep) == Halves(a, b, true)
    decreases |a|
  {
    if a == "" {
      assert (a + [sep] + b)[1..] == b;
    } else {
      assert (a + [sep] + b)[1..] == a[1..] + [sep] + b;
      CutJoined(a[1..], b, sep);
      assert [a[0]] + a[1..] == a;
    }
  }

  lemma {:induction false} CutAlone(a: string, sep: char)
    requires sep !in a
    ensures Cut(a, sep) == Halves(a, "", false)
    decreases |a|
  {
  }

  /** Splitting undoes joining, and the other way round. */
  lemma {:induction false} SplitJoined(parts: seq<string>, sep: char)
    requires parts != [] && forall i | 0 <= i < |parts| :: sep !in parts[i]
    ensures Split(Join(parts, sep), sep) == parts
    decreases |parts|
  {
    if |parts| == 1 {
      CutAlone(parts[0], sep);
    } else {
      SplitJoined(parts[1..], sep);
      CutJoined(parts[0], Join(parts[1..], sep), sep);
    }
  }

  lemma {:induction false} JoinSplit(s: string, sep: char)
    ensures Join(Split(s, sep), sep) == s
    decreases |s|
  {
    var h := Cut(s, sep);
    if h.found {
      JoinSplit(h.after, sep);
      assert Split(s, sep)[1..] == Split(h.after, sep);
    }
  }

  // ------------------------------------------------------------------- numbers

  predicate IsDigit(c: char) {
    '0' <= c <= '9'
  }

  predicate AllDigits(s: string) {
    forall i | 0 <= i < |s| :: IsDigit(s[i])
  }

  function Value(s: string): nat
    requires AllDigits(s)
    decreases |s|
  {
    if s == "" then 0 else 10 * Value(s[..|s| - 1]) + (s[|s| - 1] as int - '0' as int)
  }

  /** A signed decimal that fits an int, or nothing. */
  function Atoi(s: string): (n: Option<int>)
    ensures n.Some? ==> MIN_INT64 <= n.value <= MAX_INT64
  {
    var signed := s != "" && (s[0] == '+' || s[0] == '-');
    var digits := if signed then s[1..] else s;
    if digits == "" || !AllDigits(digits) then None
    else
      var v: int := Value(digits);
      var n := if signed && s[0] == '-' then -v else v;
      if MIN_INT64 <= n <= MAX_INT64 then Some(n) else None
  }

  function Digit(n: nat): char
    requires n < 10
  {
    ('0' as int + n) as char
  }

  /** Plain decimal, no sign. */
  function Decimal(n: nat): (s: string)
    ensures s != "" && AllDigits(s)
    decreases n
  {
    if n < 10 then [Digit(n)] else Decimal(n / 10) + [Digit(n % 10)]
  }

  lemma {:induction false} DecimalValue(n: nat)
    ensures Value(Decimal(n)) == n
    decreases n
  {
    if n < 10 {
      assert Decimal(n)[..0] == "";
    } else {
      DecimalValue(n / 10);
      assert Decimal(n)[..|Decimal(n)| - 1] == Decimal(n / 10);
    }
  }

  lemma AtoiReadsDecimal(n: nat)
    requires n <= MAX_INT64
    ensures Atoi(Decimal(n)) == Some(n)
  {
    DecimalValue(n);
    assert IsDigit(Decimal(n)[0]);
  }

  // --------------------------------------------------------------------- parts

  /** What a field accepts: its bounds, and whether 7 is another name for 0. */
  datatype Bounds = Bounds(min: int, max: int, wrap7: bool)

  ghost predicate Sensible(b: Bounds) {
    0 <= b.min <= b.max < 64 && (b.wrap7 ==> b.min == 0 && b.max == 7)
  }

  datatype Part = Part(start: int, end: int, step: int)

  function ParseRange(tok: string, b: Bounds): (r: Option<(int, int)>)
    ensures r.Some? ==> b.min <= b.max ==> b.min <= r.value.0 <= r.value.1 <= b.max
  {
    if tok == "*" then Some((b.min, b.max))
    else
      var h := Cut(tok, '-');
      var start := Atoi(h.before);
      var end := if h.found then Atoi(h.after) else start;
      if start.None? || end.None? then None
      else if start.value < b.min || end.value > b.max || start.value > end.value then None
      else Some((start.value, end.value))
  }

  function ParseStep(h: Halves): (step: Option<int>)
    ensures step.Some? ==> 0 < step.value <= MAX_INT64
  {
    if !h.found then Some(1)
    else
      var n := Atoi(h.after);
      if n.None? || n.value <= 0 then None else n
  }

  /** The range and step one list item spells, if it spells any. */
  function ParsePart(part: string, b: Bounds): (r: Option<Part>)
    ensures r.Some? ==> 0 < r.value.step <= MAX_INT64
    ensures r.Some? && b.min <= b.max ==> b.min <= r.value.start <= r.value.end <= b.max
  {
    var h := Cut(part, '/');
    var step := ParseStep(h);
    var range := ParseRange(h.before, b);
    if step.None? || range.None? then None else Some(Part(range.value.0, range.value.1, step.value))
  }

  /** v is reached by stepping from the start of the range. */
  predicate Covers(p: Part, v: int)
    requires p.step > 0
  {
    p.start <= v <= p.end && (v - p.start) % p.step == 0
  }

  function Bit(v: int, b: Bounds): int {
    if b.wrap7 && v == 7 then 0 else v
  }

  /** The next value after the range's first would not fit an int. */
  predicate Overflows(p: Part) {
    p.start + p.step > MAX_INT64
  }

  predicate Accepted(part: string, b: Bounds) {
    ParsePart(part, b).Some? && !Overflows(ParsePart(part, b).value)
  }

  /** Below limit, the part reaches v; as a day of the week, 0 is reached by 7 too and 7 stands for nothing. */
  ghost predicate Reaches(p: Part, b: Bounds, v: int, limit: int)
    requires p.step > 0
  {
    if !b.wrap7 then v < limit && Covers(p, v)
    else if v == 0 then (0 < limit && Covers(p, 0)) || (7 < limit && Covers(p, 7))
    else v != 7 && v < limit && Covers(p, v)
  }

  ghost predicate Allows(part: string, b: Bounds, bit: int) {
    ParsePart(part, b).Some? && var p := ParsePart(part, b).value; Reaches(p, b, bit, p.end + 1)
  }

  datatype Outcome<+T> = Fine(value: T) | Rejected | Panicked

  ghost predicate Marked(bits: set<int>, before: set<int>, p: Part, b: Bounds, limit: int)
    requires p.step > 0
  {
    forall bit :: bit in bits <==> bit in before || Reaches(p, b, bit, limit)
  }

  lemma MarkOne(bits: set<int>, before: set<int>, p: Part, b: Bounds, v: int)
    requires p.step > 0 && Covers(p, v) && Marked(bits, before, p, b, v)
    ensures Marked(bits + {Bit(v, b)}, before, p, b, v + p.step)
  {
    forall u | v < u < v + p.step ensures !Covers(p, u) {
      NoneBetween(v - p.start, u - p.start, p.step);
    }
    forall bit ensures bit in bits + {Bit(v, b)} <==> bit in before || Reaches(p, b, bit, v + p.step) {
      assert v <= bit < v + p.step && bit != v ==> !Covers(p, bit);
      assert v <= 7 < v + p.step && v != 7 ==> !Covers(p, 7);
      assert v <= 0 < v + p.step && v != 0 ==> !Covers(p, 0);
    }
  }

  lemma AllMarked(bits: set<int>, before: set<int>, part: string, b: Bounds, limit: int)
    requires ParsePart(part, b).Some? && limit > ParsePart(part, b).value.end
    requires Marked(bits, before, ParsePart(part, b).value, b, limit)
    ensures forall bit :: bit in bits <==> bit in before || Allows(part, b, bit)
  {
  }

  // -------------------------------------------------------------------- fields

  class Field {
    var bits: set<int>

    constructor ()
      ensures bits == {}
    {
      bits := {};
    }

    /**
     Sets a bit for every value the item covers. Stepping past the largest int comes out
     negative, below the end of the range, and shifting by it panics.
     */
    method AddPart(part: string, b: Bounds) returns (r: Outcome<()>)
      requires Sensible(b)
      modifies this
      ensures r.Rejected? <==> ParsePart(part, b).None?
      ensures r.Panicked? <==> ParsePart(part, b).Some? && Overflows(ParsePart(part, b).value)
      ensures r.Fine? ==> forall bit :: bit in bits <==> bit in old(bits) || Allows(part, b, bit)
    {
      var h := Cut(part, '/');
      var step := ParseStep(h);
      if step.None? {
        return Rejected;
      }
      var range := ParseRange(h.before, b);
      if range.None? {
        return Rejected;
      }
      r := March(Part(range.value.0, range.value.1, step.value), b);
      if r.Fine? {
        AllMarked(bits, old(bits), part, b, range.value.1 + 1);
      }
    }

    method March(p: Part, b: Bounds) returns (r: Outcome<()>)
      requires Sensible(b) && b.min <= p.start <= p.end <= b.max && 0 < p.step <= MAX_INT64
      modifies this
      ensures r == if Overflows(p) then Panicked else Fine(())
      ensures r.Fine? ==> Marked(bits, old(bits), p, b, p.end + 1)
    {
      var v := p.start;
      while v <= p.end
        invariant v <= MAX_INT64 && (v < 0 ==> Overflows(p))
        invariant v >= 0 ==> (v == p.start || v >= p.start + p.step) && (v - p.start) % p.step == 0
        invariant v >= 0 ==> Marked(bits, old(bits), p, b, v)
        decreases if v < 0 then 0 else 100 - v
      {
        if v < 0 {
          return Panicked;
        }
        MarkOne(bits, old(bits), p, b, v);
        NextMultiple(v - p.start, p.step);
        assert v - p.start + p.step == v + p.step - p.start;
        bits := bits + {Bit(v, b)};
        v := Wrap(v + p.step);
      }
      Finished(bits, old(bits), p, b, v);
      r := Fine(());
    }

    /** Reads a comma list; the first item that does not parse rejects the whole field. */
    method Parse(tok: string, b: Bounds) returns (r: Outcome<()>)
      requires Sensible(b) && bits == {}
      modifies this
      ensures r.Fine? <==> FieldAccepted(tok, b)
      ensures r.Fine? ==> FieldExact(bits, tok, b)
      ensures r.Rejected? <==> EndsRejected(Split(tok, ','), b)
      ensures r.Panicked? <==> EndsPanicked(Split(tok, ','), b)
    {
      hide Split, ParsePart, Allows, Union;
      var parts := Split(tok, ',');
      NoUnion(b);
      for i := 0 to |parts|
        invariant forall k | 0 <= k < i :: Accepted(parts[k], b)
        invariant Union(bits, parts[..i], b)
      {
        ghost var before := bits;
        var one := AddPart(parts[i], b);
        assert parts[i] in parts;
        if !one.Fine? {
          assert FirstBad(parts, b, i);
          OneFirstBad(parts, b, i);
          return one;
        }
        UnionGrows(before, parts, i, b, bits);
      }
      assert parts[..|parts|] == parts;
      FromFirst(parts, b, bits);
      NoneBad(parts, b);
      r := Fine(());
    }
  }

  /** The item that ends the reading: everything before it was accepted. */
  ghost predicate FirstBad(parts: seq<string>, b: Bounds, i: int) {
    0 <= i < |parts| && !Accepted(parts[i], b) && forall k | 0 <= k < i :: Accepted(parts[k], b)
  }

  ghost predicate EndsRejected(parts: seq<string>, b: Bounds) {
    exists i :: FirstBad(parts, b, i) && Malformed(parts[i], b)
  }

  ghost predicate EndsPanicked(parts: seq<string>, b: Bounds) {
    exists i :: FirstBad(parts, b, i) && Overflowing(parts[i], b)
  }

  /** The first bad item alone says how the reading ends. */
  lemma OneFirstBad(parts: seq<string>, b: Bounds, i: nat)
    requires FirstBad(parts, b, i)
    ensures EndsRejected(parts, b) <==> ParsePart(parts[i], b).None?
    ensures EndsPanicked(parts, b) <==> ParsePart(parts[i], b).Some?
  {
    hide ParsePart;
    assert forall k | FirstBad(parts, b, k) :: k == i;
  }

  lemma NoneBad(parts: seq<string>, b: Bounds)
    requires forall k | 0 <= k < |parts| :: Accepted(parts[k], b)
    ensures !EndsRejected(parts, b) && !EndsPanicked(parts, b)
  {
  }

  ghost predicate Malformed(part: string, b: Bounds) {
    ParsePart(part, b).None?
  }

  ghost predicate Overflowing(part: string, b: Bounds) {
    ParsePart(part, b).Some? && Overflows(ParsePart(part, b).value)
  }

  ghost predicate Union(bits: set<int>, parts: seq<string>, b: Bounds) {
    forall bit :: bit in bits <==> exists part | part in parts :: Allows(part, b, bit)
  }

  lemma NoUnion(b: Bounds)
    ensures forall parts: seq<string> | parts == [] :: Union({}, parts, b)
  {
  }

  lemma UnionGrows(before: set<int>, parts: seq<string>, i: nat, b: Bounds, bits: set<int>)
    requires i < |parts| && Union(before, parts[..i], b)
    requires forall bit :: bit in bits <==> bit in before || Allows(parts[i], b, bit)
    ensures Union(bits, parts[..i + 1], b)
  {
  }

  lemma Finished(bits: set<int>, before: set<int>, p: Part, b: Bounds, limit: int)
    requires p.step > 0 && limit > p.end && Marked(bits, before, p, b, limit)
    ensures Marked(bits, before, p, b, p.end + 1)
  {
  }

  ghost predicate FieldAccepted(tok: string, b: Bounds) {
    forall part | part in Split(tok, ',') :: Accepted(part, b)
  }

  ghost predicate InField(bit: int, b: Bounds) {
    b.min <= bit <= b.max && (b.wrap7 ==> bit != 7)
  }

  /** Exactly the values some item covers; at least one, all within the field's range. */
  ghost predicate FieldExact(bits: set<int>, tok: string, b: Bounds) {
    && bits != {}
    && (forall bit | bit in bits :: InField(bit, b))
    && Union(bits, Split(tok, ','), b)
  }

  lemma AllowedInRange(part: string, b: Bounds, bit: int)
    requires Sensible(b) && Allows(part, b, bit)
    ensures InField(bit, b)
  {
  }

  lemma FromFirst(parts: seq<string>, b: Bounds, bits: set<int>)
    requires Sensible(b) && parts != [] && Accepted(parts[0], b)
    requires Union(bits, parts, b)
    ensures bits != {}
    ensures forall bit | bit in bits :: InField(bit, b)
  {
    hide ParsePart;
    var p := ParsePart(parts[0], b).value;
    assert Covers(p, p.start);
    var first := if b.wrap7 && p.start == 7 then 0 else p.start;
    assert parts[0] in parts && Allows(parts[0], b, first);
    assert first in bits;
    forall bit | bit in bits ensures InField(bit, b) {
      var part :| part in parts && Allows(part, b, bit);
      AllowedInRange(part, b, bit);
    }
  }

  // ---------------------------------------------------------------- round trip

  function ShowPart(p: Part): string
    requires p.start >= 0 && p.end >= 0 && p.step >= 0
  {
    (Decimal(p.start) + "-" + Decimal(p.end)) + "/" + Decimal(p.step)
  }

  ghost predicate WellBounded(p: Part, b: Bounds) {
    b.min <= p.start <= p.end <= b.max && 0 < p.step <= MAX_INT64
  }

  lemma DigitsOnly(s: string, c: char)
    requires AllDigits(s) && !IsDigit(c)
    ensures c !in s
  {
  }

  /** Signs are read, and nothing else that is not a number that fits. */
  lemma AtoiForms(n: nat)
    ensures Atoi("").None? && Atoi("+").None? && Atoi("-").None?
    ensures Atoi("+" + Decimal(n)) == Atoi(Decimal(n)) == if n <= MAX_INT64 then Some(n) else None
    ensures Atoi("-" + Decimal(n)) == if 0 - n >= MIN_INT64 then Some(0 - n) else None
  {
    DecimalValue(n);
    assert IsDigit(Decimal(n)[0]);
    assert ("+" + Decimal(n))[1..] == Decimal(n) && ("-" + Decimal(n))[1..] == Decimal(n);
    hide Decimal;
  }

  /** A character that belongs in no number spoils it. */
  lemma AtoiRefuses(s: string, i: nat)
    requires i < |s| && !IsDigit(s[i]) && (i > 0 || (s[i] != '+' && s[i] != '-'))
    ensures Atoi(s).None?
  {
    if s[0] == '+' || s[0] == '-' {
      assert s[1..][i - 1] == s[i];
    }
  }

  ghost predicate Plain(s: string) {
    s != "" && AllDigits(s)
  }

  lemma PlainHasNoMarks(s: string)
    requires Plain(s)
    ensures '-' !in s && '/' !in s && ',' !in s && s != "*"
  {
    DigitsOnly(s, '-');
    DigitsOnly(s, '/');
    DigitsOnly(s, ',');
    assert IsDigit(s[0]) && !IsDigit('*');
  }

  /** A lone value is a range of one. */
  lemma ValueForm(v: int, b: Bounds)
    requires Sensible(b) && 0 <= v <= MAX_INT64
    ensures ParseRange(Decimal(v), b) == if b.min <= v <= b.max then Some((v, v)) else None
  {
    AtoiReadsDecimal(v);
    PlainHasNoMarks(Decimal(v));
    hide Atoi, Cut, Decimal;
    CutAlone(Decimal(v), '-');
  }

  /** Two values are a range when both lie in the field and in order. */
  lemma RangeForm(lo: int, hi: int, b: Bounds)
    requires Sensible(b) && 0 <= lo <= MAX_INT64 && 0 <= hi <= MAX_INT64
    ensures ParseRange(Decimal(lo) + "-" + Decimal(hi), b)
         == if b.min <= lo <= hi <= b.max then Some((lo, hi)) else None
  {
    AtoiReadsDecimal(lo);
    AtoiReadsDecimal(hi);
    PlainHasNoMarks(Decimal(lo));
    CutJoined(Decimal(lo), Decimal(hi), '-');
    assert (Decimal(lo) + "-" + Decimal(hi))[|Decimal(lo)|] == '-';
    hide Atoi, Cut, Decimal;
  }

  /** A step is positive and goes with any range; without one it is 1. */
  lemma StepForm(range: string, step: nat, b: Bounds)
    requires '/' !in range && step <= MAX_INT64
    ensures ParsePart(range, b) == if ParseRange(range, b).None? then None
      else Some(Part(ParseRange(range, b).value.0, ParseRange(range, b).value.1, 1))
    ensures ParsePart(range + "/" + Decimal(step), b) == if ParseRange(range, b).None? || step == 0 then None
      else Some(Part(ParseRange(range, b).value.0, ParseRange(range, b).value.1, step))
  {
    AtoiReadsDecimal(step);
    CutAlone(range, '/');
    CutJoined(range, Decimal(step), '/');
    hide Atoi, Cut, Decimal, ParseRange;
  }

  /** A range and step written out reads back as itself. */
  lemma PartRoundTrip(p: Part, b: Bounds)
    requires Sensible(b) && WellBounded(p, b)
    ensures ParsePart(ShowPart(p), b) == Some(p) && ',' !in ShowPart(p)
  {
    hide Atoi, Decimal, Cut;
    var lo, hi, step := Decimal(p.start), Decimal(p.end), Decimal(p.step);
    var range := lo + "-" + hi;
    forall s | s == lo || s == hi || s == step ensures '-' !in s && '/' !in s && ',' !in s {
      DigitsOnly(s, '-');
      DigitsOnly(s, '/');
      DigitsOnly(s, ',');
    }
    CutJoined(range, step, '/');
    CutJoined(lo, hi, '-');
    assert range[|lo|] == '-';
    AtoiReadsDecimal(p.start);
    AtoiReadsDecimal(p.end);
    AtoiReadsDecimal(p.step);
  }

  function ShowField(ps: seq<Part>): (parts: seq<string>)
    requires forall i | 0 <= i < |ps| :: ps[i].start >= 0 && ps[i].end >= 0 && ps[i].step >= 0
    ensures |parts| == |ps|
    ensures forall i | 0 <= i < |ps| :: parts[i] == ShowPart(ps[i])
  {
    seq(|ps|, i requires 0 <= i < |ps| => ShowPart(ps[i]))
  }

  ghost predicate GoodParts(ps: seq<Part>, b: Bounds) {
    forall i | 0 <= i < |ps| ::
      b.min <= ps[i].start <= ps[i].end <= b.max && 0 < ps[i].step && ps[i].start + ps[i].step <= MAX_INT64
  }

  /** A list of ranges and steps written out is accepted and allows exactly what they cover. */
  lemma FieldRoundTrip(ps: seq<Part>, b: Bounds, bits: set<int>)
    requires Sensible(b) && ps != [] && GoodParts(ps, b)
    ensures FieldAccepted(Join(ShowField(ps), ','), b)
    ensures FieldExact(bits, Join(ShowField(ps), ','), b) ==>
      forall v :: v in bits <==> Reached(ps, b, v)
  {
    hide ParsePart, Split, ShowPart, Join, Reaches;
    var parts := ShowField(ps);
    forall i | 0 <= i < |ps| ensures ParsePart(parts[i], b) == Some(ps[i]) && ',' !in parts[i] {
      PartRoundTrip(ps[i], b);
    }
    SplitJoined(parts, ',');
    if FieldExact(bits, Join(parts, ','), b) {
      forall v ensures v in bits <==> Reached(ps, b, v) {
        ReachedIsReaches(ps, b, v);
        if i :| 0 <= i < |ps| && Reaches(ps[i], b, v, ps[i].end + 1) {
          assert parts[i] in parts && Allows(parts[i], b, v);
        }
        if v in bits {
          var part :| part in parts && Allows(part, b, v);
          var i :| 0 <= i < |parts| && parts[i] == part;
          assert Reaches(ps[i], b, v, ps[i].end + 1);
        }
      }
    }
  }

  ghost predicate CoveredBy(ps: seq<Part>, v: int)
    requires forall i | 0 <= i < |ps| :: ps[i].step > 0
  {
    exists i :: 0 <= i < |ps| && Covers(ps[i], v)
  }

  /** Some part covers v; as a day of the week, 0 is Sunday whether it is written 0 or 7. */
  ghost predicate Reached(ps: seq<Part>, b: Bounds, v: int)
    requires forall i | 0 <= i < |ps| :: ps[i].step > 0
  {
    if !b.wrap7 then CoveredBy(ps, v)
    else if v == 0 then CoveredBy(ps, 0) || CoveredBy(ps, 7)
    else 1 <= v <= 6 && CoveredBy(ps, v)
  }

  lemma ReachedIsReaches(ps: seq<Part>, b: Bounds, v: int)
    requires Sensible(b) && GoodParts(ps, b)
    ensures Reached(ps, b, v) <==> exists i :: 0 <= i < |ps| && Reaches(ps[i], b, v, ps[i].end + 1)
  {
    if i :| 0 <= i < |ps| && Reaches(ps[i], b, v, ps[i].end + 1) {
      assert Covers(ps[i], v) || (b.wrap7 && v == 0 && Covers(ps[i], 7));
    }
    if CoveredBy(ps, v) && (b.wrap7 ==> v != 7) {
      var i :| 0 <= i < |ps| && Covers(ps[i], v);
      assert Reaches(ps[i], b, v, ps[i].end + 1);
    }
    if b.wrap7 && v == 0 && CoveredBy(ps, 7) {
      var i :| 0 <= i < |ps| && Covers(ps[i], 7);
      assert Reaches(ps[i], b, v, ps[i].end + 1);
    }
  }

  /** Some item of the list covers v. */
  ghost predicate ItemCovers(tok: string, b: Bounds, v: int) {
    exists part | part in Split(tok, ',') :: ParsePart(part, b).Some? && Covers(ParsePart(part, b).value, v)
  }

  /** An accepted field, value by value: 7 is Sunday, and nothing is allowed that no item covers. */
  lemma FieldMeaning(bits: set<int>, tok: string, b: Bounds, v: int)
    requires Sensible(b) && FieldExact(bits, tok, b)
    ensures !b.wrap7 ==> (v in bits <==> ItemCovers(tok, b, v))
    ensures b.wrap7 ==> (0 in bits <==> ItemCovers(tok, b, 0) || ItemCovers(tok, b, 7))
    ensures b.wrap7 && 1 <= v <= 6 ==> (v in bits <==> ItemCovers(tok, b, v))
  {
    hide Split, ParsePart;
    if !b.wrap7 || 1 <= v <= 6 {
      ItemByItem(tok, b, v);
    }
    if b.wrap7 {
      ItemByItem(tok, b, 0);
    }
  }

  ghost predicate Gives(part: string, b: Bounds, v: int) {
    && ParsePart(part, b).Some?
    && (Covers(ParsePart(part, b).value, v) || (b.wrap7 && v == 0 && Covers(ParsePart(part, b).value, 7)))
  }

  lemma ItemByItem(tok: string, b: Bounds, v: int)
    requires Sensible(b) && (b.wrap7 ==> 0 <= v <= 6)
    ensures (exists part | part in Split(tok, ',') :: Allows(part, b, v))
       <==> ItemCovers(tok, b, v) || (b.wrap7 && v == 0 && ItemCovers(tok, b, 7))
  {
    hide Split, ParsePart;
    forall part ensures Allows(part, b, v) <==> Gives(part, b, v) {}
  }

  lemma StarPart(b: Bounds)
    requires Sensible(b)
    ensures Split("*", ',') == ["*"] && ParsePart("*", b) == Some(Part(b.min, b.max, 1))
  {
  }

  /** A lone star allows every value of the field. */
  lemma StarAllowsAll(bits: set<int>, b: Bounds)
    requires Sensible(b) && FieldExact(bits, "*", b)
    ensures forall bit :: bit in bits <==> InField(bit, b)
  {
    hide Split, ParsePart;
    StarPart(b);
    forall bit | InField(bit, b) ensures bit in bits {
      assert Covers(Part(b.min, b.max, 1), bit);
      assert "*" in ["*"] && Allows("*", b, bit);
    }
  }

  lemma ReadsOne()
    ensures Atoi("1") == Some(1)
  {
    AtoiReadsDecimal(1);
    assert Decimal(1) == "1";
  }

  lemma StepFromOne(step: nat, b: Bounds)
    requires 0 < step <= MAX_INT64 && b.min <= 1 <= b.max
    ensures ParsePart("1/" + Decimal(step), b) == Some(Part(1, 1, step))
  {
    hide Decimal, Atoi;
    ReadsOne();
    AtoiReadsDecimal(step);
    assert "1/" + Decimal(step) == "1" + ['/'] + Decimal(step);
    CutJoined("1", Decimal(step), '/');
    CutAlone("1", '-');
  }

  /** An item that panics: 1/9223372036854775807 as a day of the month. */
  lemma HugeStepPanics(step: nat, b: Bounds)
    requires step == MAX_INT64 && b == Bounds(1, 31, false)
    ensures Overflowing("1/" + Decimal(step), b)
  {
    hide Decimal, ParsePart;
    StepFromOne(step, b);
  }
}
