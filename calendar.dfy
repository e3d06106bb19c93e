/** The calendar behind the date helpers of src/coyote/datetime.py: calendar
    dates of the proleptic Gregorian calendar in years 1 to 9999 (the range
    of Python's `datetime.date`), their day numbers, and their text
    `YYYY-MM-DD`, the calendar date in the extended format of ISO 8601:2004
    section 4.1.2.2.

    A date's day number is its ordinal, 1 for 0001-01-01, as Python's
    `date.toordinal()` counts.  Shifting a date by days moves its day
    number; text order of the `YYYY-MM-DD` strings is date order.
 */
module Calendar {
  import opened Wrappers
  import opened Strs

  datatype Date = Date(year: int, month: int, day: int)

  predicate IsLeap(y: int) {
    y % 4 == 0 && (y % 100 != 0 || y % 400 == 0)
  }

  function DaysInMonth(y: int, m: int): int {
    if m == 2 then (if IsLeap(y) then 29 else 28)
    else if m == 4 || m == 6 || m == 9 || m == 11 then 30
    else 31
  }

  function DaysInYear(y: int): int {
    if IsLeap(y) then 366 else 365
  }

  /** A date Python's `datetime.date` can hold. */
  predicate Valid(d: Date) {
    1 <= d.year <= 9999 && 1 <= d.month <= 12 && 1 <= d.day <= DaysInMonth(d.year, d.month)
  }

  const MinDate := Date(1, 1, 1)
  const MaxDate := Date(9999, 12, 31)

  /** The day number of 9999-12-31. */
  const MaxOrdinal := 3652059

  // ---------------------------------------------------------------------
  // Day numbers

  /** The days of a common year before the first of each month, the last
      entry being the whole year. */
  const CommonDaysBefore: seq<int> := [0, 31, 59, 90, 120, 151, 181, 212, 243, 273, 304, 334, 365]

  /** The days of year `y` before the first of month `m`, for `m` up to 13:
      February 29 counts from March on. */
  function DaysBeforeMonth(y: int, m: int): int
    requires 1 <= m <= 13
  {
    CommonDaysBefore[m - 1] + (if m > 2 && IsLeap(y) then 1 else 0)
  }

  /** The days before the first of January of year `y`: the lengths of
      the years before it. */
  function DaysBeforeYear(y: int): (n: int)
    requires y >= 1
    ensures n >= 365 * (y - 1)
  {
    if y == 1 then 0 else DaysBeforeYear(y - 1) + DaysInYear(y - 1)
  }

  /** `_days_before_year`: the days before year `y` in closed form, 365 a
      year plus one for every fourth year, less one for every hundredth, plus
      one for every four hundredth. */
  lemma {:induction false} DaysBeforeYearClosed(y: int)
    requires y >= 1
    ensures var p := y - 1; DaysBeforeYear(y) == 365 * p + p / 4 - p / 100 + p / 400
    decreases y
  {
    if y > 1 {
      DaysBeforeYearClosed(y - 1);
      var q := y - 1;
      var p := q - 1;
      DivStep(p, 4);
      DivStep(p, 100);
      DivStep(p, 400);
      Multiples(q);
      var a := if q % 4 == 0 then 1 else 0;
      var b := if q % 100 == 0 then 1 else 0;
      var c := if q % 400 == 0 then 1 else 0;
      assert DaysInYear(q) == 365 + a - b + c;
      assert DaysBeforeYear(y) == DaysBeforeYear(q) + DaysInYear(q);
    }
  }

  /** A multiple of 400 is one of 100, and a multiple of 100 one of 4. */
  lemma Multiples(q: int)
    ensures q % 400 == 0 ==> q % 100 == 0
    ensures q % 100 == 0 ==> q % 4 == 0
  {
    if q % 400 == 0 {
      var t := q / 400;
      assert q / 100 == 4 * t;
    }
    if q % 100 == 0 {
      var t := q / 100;
      assert q / 4 == 25 * t;
    }
  }

  /** Counting one more year adds one to the years divisible by `k` when
      the new one is. */
  lemma DivStep(p: int, k: int)
    requires p >= 0 && (k == 4 || k == 100 || k == 400)
    ensures (p + 1) / k == p / k + (if (p + 1) % k == 0 then 1 else 0)
  {
    if k == 4 {
      assert (p + 1) / 4 == p / 4 + (if (p + 1) % 4 == 0 then 1 else 0);
    } else if k == 100 {
      assert (p + 1) / 100 == p / 100 + (if (p + 1) % 100 == 0 then 1 else 0);
    } else {
      assert (p + 1) / 400 == p / 400 + (if (p + 1) % 400 == 0 then 1 else 0);
    }
  }

  /** A month starts where the one before it ends. */
  lemma MonthStep(y: int, m: int)
    requires 1 <= m <= 12
    ensures DaysBeforeMonth(y, m) + DaysInMonth(y, m) == DaysBeforeMonth(y, m + 1)
  {
  }

  /** The twelve months make the year; December starts 31 days before its
      end. */
  lemma MonthsMakeYear(y: int)
    ensures DaysBeforeMonth(y, 12) == DaysInYear(y) - 31
    ensures DaysBeforeMonth(y, 13) == DaysInYear(y)
  {
  }

  /** Later months start later. */
  lemma {:induction false} MonthsOrdered(y: int, m1: int, m2: int)
    requires 1 <= m1 < m2 <= 13
    ensures DaysBeforeMonth(y, m1) + DaysInMonth(y, m1) <= DaysBeforeMonth(y, m2)
    decreases m2
  {
    MonthStep(y, m2 - 1);
    if m1 + 1 < m2 {
      MonthsOrdered(y, m1, m2 - 1);
      assert DaysInMonth(y, m2 - 1) >= 28;
    }
  }

  /** Later years start later. */
  lemma {:induction false} YearsOrdered(a: int, b: int)
    requires 1 <= a < b
    ensures DaysBeforeYear(a) + DaysInYear(a) <= DaysBeforeYear(b)
    decreases b
  {
    if a + 1 < b {
      YearsOrdered(a, b - 1);
    }
  }

  /** A date's day number lies within its year. */
  lemma InYear(d: Date)
    requires Valid(d)
    ensures DaysBeforeYear(d.year) < DaysBeforeYear(d.year) + DaysBeforeMonth(d.year, d.month) + d.day
    ensures DaysBeforeYear(d.year) + DaysBeforeMonth(d.year, d.month) + d.day <= DaysBeforeYear(d.year + 1)
  {
    MonthsOrdered(d.year, d.month, 13);
    MonthsMakeYear(d.year);
    assert DaysBeforeMonth(d.year, d.month) >= 0 by {
      if d.month > 1 {
        MonthsOrdered(d.year, 1, d.month);
      }
    }
  }

  /** Every year ends by the end of year 9999. */
  lemma YearsBelowEnd(y: int)
    requires 1 <= y <= 9999
    ensures DaysBeforeYear(y + 1) <= MaxOrdinal
  {
    DaysBeforeYearClosed(10000);
    if y < 9999 {
      YearsOrdered(y + 1, 10000);
    }
  }

  /** `date.toordinal()`: 1 for 0001-01-01, up to 3652059 for 9999-12-31. */
  function Ordinal(d: Date): (n: int)
    requires Valid(d)
    ensures 1 <= n <= MaxOrdinal
  {
    InYear(d);
    YearsBelowEnd(d.year);
    DaysBeforeYear(d.year) + DaysBeforeMonth(d.year, d.month) + d.day
  }

  /** Dates in calendar order: by year, then month, then day. */
  predicate Before(a: Date, b: Date) {
    a.year < b.year || (a.year == b.year && (a.month < b.month || (a.month == b.month && a.day < b.day)))
  }

  /** A date before another has a smaller day number. */
  lemma OrdinalBefore(a: Date, b: Date)
    requires Valid(a) && Valid(b) && Before(a, b)
    ensures Ordinal(a) < Ordinal(b)
  {
    InYear(a);
    InYear(b);
    if a.year < b.year {
      YearsOrdered(a.year + 1, b.year + 1);
      if a.year + 1 < b.year {
        YearsOrdered(a.year + 1, b.year);
      }
    } else if a.month < b.month {
      MonthsOrdered(a.year, a.month, b.month);
    }
  }

  /** Day numbers order dates as the calendar does, and tell them apart. */
  lemma OrdinalOrder(a: Date, b: Date)
    requires Valid(a) && Valid(b)
    ensures Ordinal(a) < Ordinal(b) <==> Before(a, b)
    ensures Ordinal(a) == Ordinal(b) <==> a == b
  {
    if Before(a, b) {
      OrdinalBefore(a, b);
    } else if Before(b, a) {
      OrdinalBefore(b, a);
    }
  }

  // ---------------------------------------------------------------------
  // Shifting by days

  /** The day after `d`. */
  function Next(d: Date): (r: Date)
    requires Valid(d) && d != MaxDate
    ensures Valid(r) && Ordinal(r) == Ordinal(d) + 1
  {
    if d.day < DaysInMonth(d.year, d.month) then Date(d.year, d.month, d.day + 1)
    else if d.month < 12 then
      var r := Date(d.year, d.month + 1, 1);
      MonthStep(d.year, d.month);
      r
    else
      var r := Date(d.year + 1, 1, 1);
      MonthsMakeYear(d.year);
      r
  }

  /** The day before `d`. */
  function Prev(d: Date): (r: Date)
    requires Valid(d) && d != MinDate
    ensures Valid(r) && Ordinal(r) == Ordinal(d) - 1
  {
    if d.day > 1 then Date(d.year, d.month, d.day - 1)
    else if d.month > 1 then
      var r := Date(d.year, d.month - 1, DaysInMonth(d.year, d.month - 1));
      MonthStep(d.year, d.month - 1);
      r
    else
      var r := Date(d.year - 1, 12, 31);
      MonthsMakeYear(d.year - 1);
      r
  }

  lemma FirstOrdinal()
    ensures Valid(MinDate) && Ordinal(MinDate) == 1
  {
  }

  lemma LastOrdinal()
    ensures Valid(MaxDate) && Ordinal(MaxDate) == MaxOrdinal
  {
    MonthsMakeYear(9999);
    DaysBeforeYearClosed(9999);
  }

  /** The first and the last date are the ends of the day numbers. */
  lemma Ends(d: Date)
    requires Valid(d)
    ensures Ordinal(d) == 1 <==> d == MinDate
    ensures Ordinal(d) == MaxOrdinal <==> d == MaxDate
  {
    FirstEnd(d);
    LastEnd(d);
  }

  lemma FirstEnd(d: Date)
    requires Valid(d)
    ensures Ordinal(d) == 1 <==> d == MinDate
  {
    if d == MinDate {
      FirstOrdinal();
    } else {
      AfterFirst(d);
    }
  }

  lemma AfterFirst(d: Date)
    requires Valid(d) && d != MinDate
    ensures Ordinal(d) > 1
  {
    OrdinalBefore(MinDate, d);
    FirstOrdinal();
  }

  lemma LastEnd(d: Date)
    requires Valid(d)
    ensures Ordinal(d) == MaxOrdinal <==> d == MaxDate
  {
    LastOrdinal();
    OrdinalOrder(d, MaxDate);
  }

  /** `d` shifted by `n` days, a day at a time; leaving years 1..9999
      raises `OverflowError`.  The result is the date whose day number is
      `n` more. */
  function AddDays(d: Date, n: int): (r: Result<Date>)
    requires Valid(d)
    ensures r.Ok? <==> 1 <= Ordinal(d) + n <= MaxOrdinal
    ensures r.Ok? ==> Valid(r.value) && Ordinal(r.value) == Ordinal(d) + n
    ensures r.Err? ==> r.error == OverflowError
    decreases if n < 0 then -n else n
  {
    if n == 0 then Ok(d)
    else if n > 0 then
      if d == MaxDate then LastOrdinal(); Err(OverflowError) else AddDays(Next(d), n - 1)
    else
      if d == MinDate then FirstOrdinal(); Err(OverflowError) else AddDays(Prev(d), n + 1)
  }

  /** The date whose day number is `n` more is `d` shifted by `n` days. */
  lemma AddDaysTo(d: Date, n: int, e: Date)
    requires Valid(d) && Valid(e) && Ordinal(e) == Ordinal(d) + n
    ensures AddDays(d, n) == Ok(e)
  {
    OrdinalOrder(AddDays(d, n).value, e);
  }

  /** Two shifts make one. */
  lemma AddDaysTwice(d: Date, a: int, b: int)
    requires Valid(d) && AddDays(d, a).Ok?
    ensures AddDays(AddDays(d, a).value, b) == AddDays(d, a + b)
  {
    var e := AddDays(d, a).value;
    if AddDays(e, b).Ok? {
      OrdinalOrder(AddDays(e, b).value, AddDays(d, a + b).value);
    }
  }

  // ---------------------------------------------------------------------
  // YYYY-MM-DD

  /** Two digits. */
  function Two(n: int): (r: string)
    requires 0 <= n < 100
    ensures |r| == 2 && IsDigit(r[0]) && IsDigit(r[1])
  {
    [DigitChar(n / 10), DigitChar(n % 10)]
  }

  /** Four digits. */
  function Four(n: int): (r: string)
    requires 0 <= n < 10000
    ensures |r| == 4
  {
    Two(n / 100) + Two(n % 100)
  }

  /** `format('YYYY-MM-DD')`. */
  function Format(d: Date): (r: string)
    requires Valid(d)
    ensures |r| == 10
  {
    Four(d.year) + ("-" + (Two(d.month) + ("-" + Two(d.day))))
  }

  function DigitValue(c: char): int
    requires IsDigit(c)
  {
    c as int - '0' as int
  }

  /** The number two digits at `i` spell. */
  function TwoAt(s: string, i: int): int
    requires 0 <= i <= |s| - 2 && IsDigit(s[i]) && IsDigit(s[i + 1])
  {
    10 * DigitValue(s[i]) + DigitValue(s[i + 1])
  }

  /** The shape `YYYY-MM-DD`: ten characters, digits but for the two
      dashes. */
  predicate DateShape(s: string) {
    |s| == 10 && s[4] == '-' && s[7] == '-' &&
    IsDigit(s[0]) && IsDigit(s[1]) && IsDigit(s[2]) && IsDigit(s[3]) &&
    IsDigit(s[5]) && IsDigit(s[6]) && IsDigit(s[8]) && IsDigit(s[9])
  }

  /** `arrow.get(s, 'YYYY-MM-DD')`: text of another shape raises
      `ParserError`; a shape whose numbers are not a date raises
      `ValueError`.  What it accepts is exactly the text of a date. */
  function Parse(s: string): (r: Result<Date>)
    ensures r.Ok? ==> Valid(r.value)
    ensures !DateShape(s) <==> r == Err(ParserError)
    ensures r.Err? ==> r.error == ParserError || r.error == ValueError
  {
    if !DateShape(s) then Err(ParserError)
    else
      var d := Date(100 * TwoAt(s, 0) + TwoAt(s, 2), TwoAt(s, 5), TwoAt(s, 8));
      if !Valid(d) then Err(ValueError)
      else
        FormatShape(s, d);
        Ok(d)
  }

  /** What `Parse` accepts is the text of the date it reads. */
  lemma ParseText(s: string)
    requires Parse(s).Ok?
    ensures Format(Parse(s).value) == s
  {
    var d := Parse(s).value;
    FormatShape(s, d);
  }

  /** The digits of a date's text spell its numbers. */
  lemma TwoValue(n: int)
    requires 0 <= n < 100
    ensures TwoAt(Two(n), 0) == n
  {
  }

  /** A date's text spells the date. */
  lemma FormatShape(s: string, d: Date)
    requires DateShape(s) && Valid(d)
    requires d == Date(100 * TwoAt(s, 0) + TwoAt(s, 2), TwoAt(s, 5), TwoAt(s, 8))
    ensures Format(d) == s
  {
    assert d.year / 100 == TwoAt(s, 0) && d.year % 100 == TwoAt(s, 2);
    TwoSpells(s, 0);
    TwoSpells(s, 2);
    TwoSpells(s, 5);
    TwoSpells(s, 8);
    assert Four(d.year) == s[..4];
    assert s == s[..4] + ("-" + (s[5..7] + ("-" + s[8..10])));
  }

  /** Two digits spell the number they stand for. */
  lemma TwoSpells(s: string, i: int)
    requires 0 <= i <= |s| - 2 && IsDigit(s[i]) && IsDigit(s[i + 1])
    ensures Two(TwoAt(s, i)) == s[i..i + 2]
  {
    var n := TwoAt(s, i);
    assert n / 10 == DigitValue(s[i]) && n % 10 == DigitValue(s[i + 1]);
  }

  /** `Parse` reads back what `Format` writes. */
  lemma ParseFormat(d: Date)
    requires Valid(d)
    ensures Parse(Format(d)) == Ok(d)
  {
    var s := Format(d);
    TwoValue(d.year / 100);
    TwoValue(d.year % 100);
    TwoValue(d.month);
    TwoValue(d.day);
    assert TwoAt(s, 0) == TwoAt(Two(d.year / 100), 0);
    assert TwoAt(s, 2) == TwoAt(Two(d.year % 100), 0);
    assert TwoAt(s, 5) == TwoAt(Two(d.month), 0);
    assert TwoAt(s, 8) == TwoAt(Two(d.day), 0);
  }

  // ---------------------------------------------------------------------
  // Text order is date order

  /** Comparing two strings that start with parts of equal length compares
      the parts first. */
  lemma {:induction false} LessAppend(p: string, s: string, q: string, t: string)
    requires |p| == |q|
    ensures Less(p + s, q + t) <==> Less(p, q) || (p == q && Less(s, t))
    decreases |p|
  {
    if |p| > 0 {
      assert (p + s)[0] == p[0] && (q + t)[0] == q[0];
      assert (p + s)[1..] == p[1..] + s && (q + t)[1..] == q[1..] + t;
      LessAppend(p[1..], s, q[1..], t);
      if p[0] == q[0] {
        assert p == q <==> p[1..] == q[1..] by {
          if p[1..] == q[1..] {
            assert p == [p[0]] + p[1..] && q == [q[0]] + q[1..];
          }
        }
      }
    } else {
      assert p + s == s && q + t == t;
    }
  }

  /** Two-digit texts compare as their numbers. */
  lemma TwoLess(x: int, y: int)
    requires 0 <= x < 100 && 0 <= y < 100
    ensures Less(Two(x), Two(y)) <==> x < y
    ensures Two(x) == Two(y) <==> x == y
  {
    TwoValue(x);
    TwoValue(y);
    var a, b := Two(x), Two(y);
    assert a[1..][1..] == [] && b[1..][1..] == [];
    assert Less(a[1..], b[1..]) <==> a[1] < b[1];
    assert a[0] < b[0] <==> x / 10 < y / 10;
    assert a[1] < b[1] <==> x % 10 < y % 10;
    assert x < y <==> x / 10 < y / 10 || (x / 10 == y / 10 && x % 10 < y % 10);
  }

  /** Four-digit texts compare as their numbers. */
  lemma FourLess(x: int, y: int)
    requires 0 <= x < 10000 && 0 <= y < 10000
    ensures Less(Four(x), Four(y)) <==> x < y
    ensures Four(x) == Four(y) <==> x == y
  {
    TwoLess(x / 100, y / 100);
    TwoLess(x % 100, y % 100);
    LessAppend(Two(x / 100), Two(x % 100), Two(y / 100), Two(y % 100));
    assert Four(x) == Four(y) ==> Four(x)[..2] == Four(y)[..2] && Four(x)[2..] == Four(y)[2..];
    assert x < y <==> x / 100 < y / 100 || (x / 100 == y / 100 && x % 100 < y % 100);
  }

  /** `"-" + x` against `"-" + y` compares `x` with `y`. */
  lemma DashLess(x: string, y: string)
    ensures Less("-" + x, "-" + y) <==> Less(x, y)
  {
    LessAppend("-", x, "-", y);
  }

  /** `YYYY-MM-DD` texts compare as their dates: `start_date <= end_date`
      and `start_date < end_date` on the text are calendar order. */
  lemma FormatLess(a: Date, b: Date)
    requires Valid(a) && Valid(b)
    ensures Less(Format(a), Format(b)) <==> Before(a, b)
    ensures Format(a) == Format(b) <==> a == b
  {
    ParseFormat(a);
    ParseFormat(b);
    var da, db := "-" + Two(a.day), "-" + Two(b.day);
    var ma, mb := "-" + (Two(a.month) + da), "-" + (Two(b.month) + db);
    FourLess(a.year, b.year);
    LessAppend(Four(a.year), ma, Four(b.year), mb);
    TwoLess(a.month, b.month);
    DashLess(Two(a.month) + da, Two(b.month) + db);
    LessAppend(Two(a.month), da, Two(b.month), db);
    TwoLess(a.day, b.day);
    DashLess(Two(a.day), Two(b.day));
  }
}
