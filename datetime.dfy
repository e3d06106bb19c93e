/** The date helpers of src/coyote/datetime.py: `shift_day`, `shift_hour`
    and `DateRange`, over `YYYY-MM-DD` texts (the calendar date in the
    extended format of ISO 8601:2004 section 4.1.2.2) and two-digit hours.

    The current date in the chosen time zone is a parameter `today`;
    arrow's parsing is modelled as the strict shapes `YYYY-MM-DD` and
    `YYYY-MM-DD HH`.
 */
module DateTime {
  import opened Wrappers
  import opened Strs
  import opened Calendar

  // ---------------------------------------------------------------------
  // shift_day

  /** `shift_day(day, ndays)`: the text unchanged, unparsed, when `ndays`
      is 0; otherwise the date read from the text, shifted.  A text that is
      not a date raises what `Parse` raises. */
  function ShiftDay(day: string, n: int): (r: Result<string>)
    ensures n == 0 ==> r == Ok(day)
    ensures n != 0 && Parse(day).Err? ==> r == Err(Parse(day).error)
    ensures n != 0 && Parse(day).Ok? ==> r == ShiftDate(Parse(day).value, n)
  {
    if n == 0 then Ok(day)
    else
      match Parse(day)
      case Err(x) => Err(x)
      case Ok(d) => ShiftDate(d, n)
  }

  /** The text of the date `n` days after `d`; leaving years 1..9999 raises
      `OverflowError`. */
  function ShiftDate(d: Date, n: int): (r: Result<string>)
    requires Valid(d)
    ensures r.Ok? <==> 1 <= Ordinal(d) + n <= MaxOrdinal
    ensures r.Err? ==> r.error == OverflowError
  {
    match AddDays(d, n)
    case Err(x) => Err(x)
    case Ok(e) => Ok(Format(e))
  }

  /** A shift that succeeds lands on the text of the date whose day number
      is `n` more, which reads back as that date. */
  lemma ShiftDateLands(d: Date, n: int)
    requires Valid(d) && ShiftDate(d, n).Ok?
    ensures Parse(ShiftDate(d, n).value).Ok?
    ensures var e := Parse(ShiftDate(d, n).value).value;
            Ordinal(e) == Ordinal(d) + n && ShiftDate(d, n) == Ok(Format(e))
  {
    ParseFormat(AddDays(d, n).value);
  }

  /** Shifting a date's text shifts the date. */
  lemma ShiftDayFormat(d: Date, n: int)
    requires Valid(d)
    ensures ShiftDay(Format(d), n) == if n == 0 then Ok(Format(d)) else ShiftDate(d, n)
  {
    ParseFormat(d);
  }

  /** Shifting forth and back again returns the date's text. */
  lemma ShiftDayBack(d: Date, n: int)
    requires Valid(d) && ShiftDay(Format(d), n).Ok?
    ensures ShiftDay(ShiftDay(Format(d), n).value, -n) == Ok(Format(d))
  {
    ShiftDayFormat(d, n);
    if n != 0 {
      ShiftTextForth(d, AddDays(d, n).value, n);
      ShiftTextBack(d, AddDays(d, n).value, n);
    }
  }

  /** The text of a date shifted to another is the other's text. */
  lemma ShiftTextForth(d: Date, e: Date, n: int)
    requires Valid(d) && Valid(e) && n != 0 && AddDays(d, n) == Ok(e)
    ensures ShiftDay(Format(d), n) == Ok(Format(e))
  {
    ShiftDayFormat(d, n);
    ShiftDateTo(d, n, e);
  }

  /** The text of a date shifted to another shifts back. */
  lemma ShiftTextBack(d: Date, e: Date, n: int)
    requires Valid(d) && Valid(e) && n != 0 && AddDays(d, n) == Ok(e)
    ensures ShiftDay(Format(e), -n) == Ok(Format(d))
  {
    AddDaysTwice(d, n, -n);
    ShiftDateTo(e, -n, d);
    ShiftDayFormat(e, -n);
  }

  /** A shift to a date gives the date's text. */
  lemma ShiftDateTo(d: Date, n: int, e: Date)
    requires Valid(d) && AddDays(d, n) == Ok(e)
    ensures ShiftDate(d, n) == Ok(Format(e))
  {
  }

  /** The day number of a date of 2018. */
  lemma In2018(d: Date)
    requires Valid(d) && d.year == 2018
    ensures Ordinal(d) == 736694 + DaysBeforeMonth(2018, d.month) + d.day
  {
    DaysBeforeYearClosed(2018);
  }

  /** 2018-09-03 less five days is 2018-08-29. */
  lemma BackAcrossMonth()
    ensures AddDays(Date(2018, 9, 3), -5) == Ok(Date(2018, 8, 29))
  {
    var d, e := Date(2018, 9, 3), Date(2018, 8, 29);
    In2018(d);
    In2018(e);
    AddDaysTo(d, -5, e);
  }

  /** 2018-09-28 and six days is 2018-10-04. */
  lemma ForthAcrossMonth()
    ensures AddDays(Date(2018, 9, 28), 6) == Ok(Date(2018, 10, 4))
  {
    var d, e := Date(2018, 9, 28), Date(2018, 10, 4);
    In2018(d);
    In2018(e);
    AddDaysTo(d, 6, e);
  }

  // ---------------------------------------------------------------------
  // shift_hour

  /** An hour of the shape `HH`. */
  predicate HourShape(h: string) {
    |h| == 2 && IsDigit(h[0]) && IsDigit(h[1])
  }

  /** `arrow.get(day + ' ' + hour, 'YYYY-MM-DD HH')`: the joined text has
      that shape exactly when the day has the shape `YYYY-MM-DD` and the
      hour the shape `HH`; otherwise `ParserError`.  A day that is not a
      date, or an hour from 24 on, raises `ValueError`. */
  function ParseDayHour(day: string, h: string): (r: Result<(Date, int)>)
    ensures r.Ok? ==> Valid(r.value.0) && 0 <= r.value.1 < 24
    ensures !(DateShape(day) && HourShape(h)) <==> r == Err(ParserError)
    ensures r.Err? ==> r.error == ParserError || r.error == ValueError
  {
    if !DateShape(day) || !HourShape(h) then Err(ParserError)
    else
      match Parse(day)
      case Err(x) => Err(x)
      case Ok(d) =>
        var hr := TwoAt(h, 0);
        if hr >= 24 then Err(ValueError) else Ok((d, hr))
  }

  /** What `ParseDayHour` accepts is the text of the day and the hour it
      reads, and it reads back every such text. */
  lemma DayHourText(d: Date, hr: int)
    requires Valid(d) && 0 <= hr < 24
    ensures ParseDayHour(Format(d), Two(hr)) == Ok((d, hr))
  {
    ParseFormat(d);
    TwoValue(hr);
  }

  /** The hours from 0001-01-01 00:00 to the hour `hr` of day `d`. */
  function HourNumber(d: Date, hr: int): int
    requires Valid(d)
  {
    24 * (Ordinal(d) - 1) + hr
  }

  /** The hour number tells the day and the hour. */
  lemma HourNumberUnique(d: Date, hr: int, e: Date, er: int)
    requires Valid(d) && Valid(e) && 0 <= hr < 24 && 0 <= er < 24
    ensures HourNumber(d, hr) == HourNumber(e, er) <==> d == e && hr == er
  {
    OrdinalOrder(d, e);
  }

  /** A one-character hour with a leading `0`. */
  function Pad(hour: string): (h: string)
    ensures |hour| == 1 ==> h == ['0', hour[0]]
    ensures |hour| != 1 ==> h == hour
  {
    if |hour| == 1 then "0" + hour else hour
  }

  /** `shift_hour(day, hour, nhours)`: the pair unchanged, unparsed, when
      `nhours` is 0; otherwise the padded hour is shifted. */
  function ShiftHour(day: string, hour: string, n: int): (r: Result<(string, string)>)
    ensures n == 0 ==> r == Ok((day, hour))
    ensures n != 0 ==> r == ShiftPadded(day, Pad(hour), n)
  {
    if n == 0 then Ok((day, hour)) else ShiftPadded(day, Pad(hour), n)
  }

  /** The day and hour read from the text, shifted; what `ParseDayHour`
      raises otherwise. */
  function ShiftPadded(day: string, h: string, n: int): (r: Result<(string, string)>)
    ensures ParseDayHour(day, h).Err? ==> r == Err(ParseDayHour(day, h).error)
    ensures ParseDayHour(day, h).Ok? ==> r == ShiftAt(ParseDayHour(day, h).value.0, ParseDayHour(day, h).value.1, n)
  {
    match ParseDayHour(day, h)
    case Err(x) => Err(x)
    case Ok(p) => ShiftAt(p.0, p.1, n)
  }

  /** The day and hour `n` hours after hour `hr` of day `d`, formatted
      `YYYY-MM-DD HH` and split at the space; leaving years 1..9999 raises
      `OverflowError`. */
  function ShiftAt(d: Date, hr: int, n: int): (r: Result<(string, string)>)
    requires Valid(d) && 0 <= hr < 24
    ensures r.Ok? <==> 0 <= HourNumber(d, hr) + n < 24 * MaxOrdinal
    ensures r.Err? ==> r.error == OverflowError
  {
    HourRange(d, hr, n);
    match AddDays(d, (hr + n) / 24)
    case Err(x) => Err(x)
    case Ok(e) => Ok((Format(e), Two((hr + n) % 24)))
  }

  /** `(hr + n) / 24` stays within the day numbers exactly when the hour
      number stays within years 1..9999. */
  lemma HourRange(d: Date, hr: int, n: int)
    requires Valid(d) && 0 <= hr < 24
    ensures 1 <= Ordinal(d) + (hr + n) / 24 <= MaxOrdinal <==> 0 <= HourNumber(d, hr) + n < 24 * MaxOrdinal
  {
    var t := hr + n;
    assert t == 24 * (t / 24) + t % 24 && 0 <= t % 24 < 24;
  }

  /** A shift that succeeds lands on the text of the day and hour whose
      hour number is `n` more, which reads back as that day and hour. */
  lemma ShiftAtLands(d: Date, hr: int, n: int) returns (e: Date, er: int)
    requires Valid(d) && 0 <= hr < 24 && ShiftAt(d, hr, n).Ok?
    ensures Valid(e) && 0 <= er < 24 && HourNumber(e, er) == HourNumber(d, hr) + n
    ensures ShiftAt(d, hr, n) == Ok((Format(e), Two(er)))
    ensures ParseDayHour(Format(e), Two(er)) == Ok((e, er))
  {
    var t := hr + n;
    e := AddDays(d, t / 24).value;
    er := t % 24;
    assert ShiftAt(d, hr, n) == Ok((Format(e), Two(er)));
    assert t == 24 * (t / 24) + er;
    DayHourText(e, er);
  }

  /** Shifting the text of a day and an hour shifts the day and the hour. */
  lemma ShiftHourText(d: Date, hr: int, n: int)
    requires Valid(d) && 0 <= hr < 24 && n != 0
    ensures ShiftHour(Format(d), Two(hr), n) == ShiftAt(d, hr, n)
  {
    DayHourText(d, hr);
  }

  /** A one-character hour is read as the same hour with a leading `0`. */
  lemma ShiftHourPads(day: string, c: char, n: int)
    ensures ShiftHour(day, [c], n) == (if n == 0 then Ok((day, [c])) else ShiftHour(day, ['0', c], n))
  {
  }

  /** `format('YYYY-MM-DD HH').split()` is the pair of the day's text and
      the hour's. */
  lemma FormatSplits(e: Date, hr: int)
    requires Valid(e) && 0 <= hr < 24
    ensures Words(Format(e) + " " + Two(hr)) == [Format(e), Two(hr)]
  {
    var f, h := Format(e), Two(hr);
    ParseFormat(e);
    assert Printable(f) by {
      assert DateShape(f);
    }
    PrintableWord(f);
    PrintableWord(h);
    WordsPair(f, h);
  }

  /** Shifting by whole days keeps the hour and shifts the day. */
  lemma ShiftHourByDays(d: Date, hr: int, k: int)
    requires Valid(d) && 0 <= hr < 24 && k != 0
    ensures AddDays(d, k).Ok? ==> ShiftHour(Format(d), Two(hr), 24 * k) == Ok((Format(AddDays(d, k).value), Two(hr)))
    ensures AddDays(d, k).Err? ==> ShiftHour(Format(d), Two(hr), 24 * k) == Err(OverflowError)
  {
    ShiftHourText(d, hr, 24 * k);
    ShiftAtDays(d, hr, k);
  }

  lemma ShiftAtDays(d: Date, hr: int, k: int)
    requires Valid(d) && 0 <= hr < 24
    ensures AddDays(d, k).Ok? ==> ShiftAt(d, hr, 24 * k) == Ok((Format(AddDays(d, k).value), Two(hr)))
    ensures AddDays(d, k).Err? ==> ShiftAt(d, hr, 24 * k) == Err(OverflowError)
  {
    if AddDays(d, k).Ok? {
      WholeDays(hr, k);
    }
  }

  lemma WholeDays(hr: int, k: int)
    requires 0 <= hr < 24
    ensures (hr + 24 * k) / 24 == k && (hr + 24 * k) % 24 == hr
  {
  }

  /** Shifting forth and back again returns the day and the hour. */
  lemma ShiftHourBack(d: Date, hr: int, n: int)
    requires Valid(d) && 0 <= hr < 24 && ShiftHour(Format(d), Two(hr), n).Ok?
    ensures var (x, y) := ShiftHour(Format(d), Two(hr), n).value;
            ShiftHour(x, y, -n) == Ok((Format(d), Two(hr)))
  {
    if n != 0 {
      ShiftHourText(d, hr, n);
      var e, er := ShiftAtLands(d, hr, n);
      ShiftHourText(e, er, -n);
      var f, fr := ShiftAtLands(e, er, -n);
      HourNumberUnique(f, fr, d, hr);
    }
  }

  /** 08 o'clock and twelve hours is 20 o'clock the same day, as on
      2018-09-20. */
  lemma TwelveHoursOn(d: Date)
    requires Valid(d)
    ensures ShiftHour(Format(d), Two(8), 12) == Ok((Format(d), Two(20)))
  {
    ShiftHourText(d, 8, 12);
  }

  /** 2018-09-20 less one day is 2018-09-19. */
  lemma DayBefore()
    ensures AddDays(Date(2018, 9, 20), -1) == Ok(Date(2018, 9, 19))
  {
    var d, e := Date(2018, 9, 20), Date(2018, 9, 19);
    In2018(d);
    In2018(e);
    AddDaysTo(d, -1, e);
  }

  /** 08 o'clock on 2018-09-20 less 24 hours is 08 o'clock on 2018-09-19. */
  lemma DayOfHoursBack()
    ensures ShiftHour(Format(Date(2018, 9, 20)), Two(8), -24) == Ok((Format(Date(2018, 9, 19)), Two(8)))
  {
    ShiftHourByDays(Date(2018, 9, 20), 8, -1);
    DayBefore();
  }

  // ---------------------------------------------------------------------
  // DateRange

  /** `common_dates`: the texts of today, yesterday and tomorrow.  On the
      first and the last date one of the shifts raises `OverflowError`. */
  function CommonDates(today: Date): (r: Result<(string, string, string)>)
    requires Valid(today)
    ensures r.Ok? <==> 1 < Ordinal(today) < MaxOrdinal
    ensures r.Err? ==> r.error == OverflowError
    ensures r.Ok? ==> r.value.0 == Format(today)
    ensures r.Ok? ==> Parse(r.value.1).Ok? && Ordinal(Parse(r.value.1).value) == Ordinal(today) - 1
    ensures r.Ok? ==> Parse(r.value.2).Ok? && Ordinal(Parse(r.value.2).value) == Ordinal(today) + 1
  {
    var t := Format(today);
    ShiftDayFormat(today, -1);
    ShiftDayFormat(today, 1);
    match ShiftDay(t, -1)
    case Err(x) => Err(x)
    case Ok(y) =>
      match ShiftDay(t, 1)
      case Err(x) => Err(x)
      case Ok(m) =>
        ShiftDateLands(today, -1);
        ShiftDateLands(today, 1);
        Ok((t, y, m))
  }

  /** `common_dates.get(x, x)`. */
  function Resolve(x: string, c: (string, string, string)): (r: string)
    ensures r == x || r == c.0 || r == c.1 || r == c.2
    ensures x != "today" && x != "yesterday" && x != "tomorrow" ==> r == x
  {
    if x == "today" then c.0
    else if x == "yesterday" then c.1
    else if x == "tomorrow" then c.2
    else x
  }

  /** `start <= end` on texts. */
  predicate NotAfter(s: string, e: string) {
    Less(s, e) || s == e
  }

  /** The first and the last day `DateRange.__init__` settles on, before it
      lists the days in between, with `today`, `yesterday` and `tomorrow`
      standing for the texts of `c`.  An empty text stands for a date not
      given.  A given bound is kept; the other is found by shifting it by
      the number of days less one; the assertions of `__init__` raise
      `AssertionError`, and `n_days > 0` on `None` raises `TypeError`. */
  function Settle(start: string, end: string, nDays: Option<int>, c: (string, string, string)): (r: Result<(string, string)>)
    ensures r.Ok? && start != "" ==> r.value.0 == Resolve(start, c)
    ensures r.Ok? && end != "" ==> r.value.1 == Resolve(end, c)
    ensures start != "" && end != "" ==>
              (r.Ok? <==> nDays.None? && NotAfter(Resolve(start, c), Resolve(end, c))) &&
              (r.Err? ==> r.error == AssertionError)
    ensures start == "" && end == "" ==> r == Err(AssertionError)
    ensures (start == "") != (end == "") && nDays.None? ==> r == Err(TypeError)
    ensures (start == "") != (end == "") && nDays.Some? && nDays.value <= 0 ==> r == Err(AssertionError)
    ensures start != "" && end == "" && nDays.Some? && nDays.value > 0 ==>
              var x := ShiftDay(Resolve(start, c), nDays.value - 1);
              (r.Ok? <==> x.Ok?) && (r.Ok? ==> r.value.1 == x.value) && (r.Err? ==> r.error == x.error)
    ensures start == "" && end != "" && nDays.Some? && nDays.value > 0 ==>
              var x := ShiftDay(Resolve(end, c), -(nDays.value - 1));
              (r.Ok? <==> x.Ok?) && (r.Ok? ==> r.value.0 == x.value) && (r.Err? ==> r.error == x.error)
  {
    var s := if start != "" then Resolve(start, c) else start;
    var e := if end != "" then Resolve(end, c) else end;
    if start != "" then
      if end != "" then
        if nDays.Some? then Err(AssertionError)
        else if !NotAfter(s, e) then Err(AssertionError)
        else Ok((s, e))
      else if nDays.None? then Err(TypeError)
      else if nDays.value <= 0 then Err(AssertionError)
      else
        match ShiftDay(s, nDays.value - 1)
        case Err(x) => Err(x)
        case Ok(x) => Ok((s, x))
    else if end == "" then Err(AssertionError)
    else if nDays.None? then Err(TypeError)
    else if nDays.value <= 0 then Err(AssertionError)
    else
      match ShiftDay(e, -(nDays.value - 1))
      case Err(x) => Err(x)
      case Ok(x) => Ok((x, e))
  }

  /** The bounds with the texts of `today` and the days either side; on
      the first or the last date of the calendar finding those raises
      `OverflowError`. */
  function Bounds(start: string, end: string, nDays: Option<int>, today: Date): (r: Result<(string, string)>)
    requires Valid(today)
    ensures CommonDates(today).Err? ==> r == Err(OverflowError)
    ensures CommonDates(today).Ok? ==> r == Settle(start, end, nDays, CommonDates(today).value)
  {
    match CommonDates(today)
    case Err(x) => Err(x)
    case Ok(c) => Settle(start, end, nDays, c)
  }

  /** How far a text is from the last date: a text that is not a date is
      farthest. */
  function Distance(s: string): nat {
    if Parse(s).Ok? then MaxOrdinal + 1 - Ordinal(Parse(s).value) else MaxOrdinal + 2
  }

  /** A step of a day brings the text closer to the last date. */
  lemma StepCloser(s: string)
    requires ShiftDay(s, 1).Ok?
    ensures Distance(ShiftDay(s, 1).value) < Distance(s)
  {
    ShiftDateLands(Parse(s).value, 1);
  }

  /** The days the loop of `DateRange.__init__` lists from `cur` while it is
      before `end` (compared as texts), one day at a time; a step that
      cannot be taken raises. */
  function Walk(cur: string, end: string): (r: Result<seq<string>>)
    ensures r.Ok? ==> |r.value| > 0 && r.value[0] == cur && !Less(r.value[|r.value| - 1], end)
    ensures r.Ok? ==> forall i :: 0 <= i < |r.value| - 1 ==>
              Less(r.value[i], end) && ShiftDay(r.value[i], 1) == Ok(r.value[i + 1])
    decreases Distance(cur)
  {
    if !Less(cur, end) then Ok([cur])
    else
      match ShiftDay(cur, 1)
      case Err(x) => Err(x)
      case Ok(next) =>
        StepCloser(cur);
        match Walk(next, end)
        case Err(x) => Err(x)
        case Ok(w) =>
          var r := [cur] + w;
          assert forall i :: 0 < i < |r| ==> r[i] == w[i - 1];
          Ok(r)
  }

  /** The walk from `cur`, after the days already listed. */
  function After(listed: seq<string>, r: Result<seq<string>>): Result<seq<string>> {
    match r
    case Err(x) => Err(x)
    case Ok(w) => Ok(listed + w)
  }

  /** Nothing listed before a walk leaves it as it is. */
  lemma AfterNothing(r: Result<seq<string>>)
    ensures After([], r) == r
  {
    if r.Ok? {
      assert [] + r.value == r.value;
    }
  }

  /** A step of the walk moves a day from the walk to the days listed. */
  lemma WalkStep(listed: seq<string>, cur: string, next: string, end: string)
    requires Less(cur, end) && ShiftDay(cur, 1) == Ok(next)
    ensures After(listed, Walk(cur, end)) == After(listed + [cur], Walk(next, end))
  {
    if Walk(next, end).Ok? {
      var w := Walk(next, end).value;
      assert listed + ([cur] + w) == listed + [cur] + w;
    }
  }

  /** From the text of a date to the text of a date not before it, the
      walk lists every day once: as many days as the day numbers span,
      ending on the last. */
  lemma {:induction false} WalkDays(a: Date, b: Date)
    requires Valid(a) && Valid(b) && Ordinal(a) <= Ordinal(b)
    ensures Walk(Format(a), Format(b)).Ok?
    ensures var w := Walk(Format(a), Format(b)).value;
            |w| == Ordinal(b) - Ordinal(a) + 1 && w[|w| - 1] == Format(b)
    decreases Ordinal(b) - Ordinal(a)
  {
    FormatLess(a, b);
    OrdinalOrder(a, b);
    if Ordinal(a) < Ordinal(b) {
      ShiftDayFormat(a, 1);
      ShiftDateLands(a, 1);
      var next := ShiftDay(Format(a), 1).value;
      var c := Parse(next).value;
      assert next == Format(c);
      WalkDays(c, b);
    }
  }

  /** The text of a date is none of the names `today`, `yesterday` and
      `tomorrow`. */
  lemma ResolveFormat(a: Date, c: (string, string, string))
    requires Valid(a)
    ensures Resolve(Format(a), c) == Format(a)
  {
    assert |Format(a)| == 10;
  }

  /** From a first date and a number of days `n > 0` that stay within the
      calendar, the range has `n` days, from the first date's text to the
      text of the date `n - 1` days on. */
  lemma RangeFromStart(a: Date, n: int, c: (string, string, string))
    requires Valid(a)
    requires n > 0 && Ordinal(a) + n - 1 <= MaxOrdinal
    ensures Settle(Format(a), "", Some(n), c).Ok?
    ensures var b := Settle(Format(a), "", Some(n), c).value;
            b.0 == Format(a) && Walk(b.0, b.1).Ok? &&
            |Walk(b.0, b.1).value| == n &&
            b.1 == Format(AddDays(a, n - 1).value)
  {
    var e := AddDays(a, n - 1).value;
    BoundsFromStart(a, e, n, c);
    WalkDays(a, e);
  }

  /** The bounds from a first date and a number of days. */
  lemma BoundsFromStart(a: Date, b: Date, n: int, c: (string, string, string))
    requires Valid(a) && Valid(b)
    requires n > 0 && AddDays(a, n - 1) == Ok(b)
    ensures Settle(Format(a), "", Some(n), c) == Ok((Format(a), Format(b)))
  {
    ResolveFormat(a, c);
    ShiftToEnd(a, b, n - 1);
  }

  /** A first date shifted by a number of days gives the text of the date
      that many days on. */
  lemma ShiftToEnd(a: Date, b: Date, m: int)
    requires Valid(a) && Valid(b) && m >= 0 && AddDays(a, m) == Ok(b)
    ensures ShiftDay(Format(a), m) == Ok(Format(b))
  {
    if m > 0 {
      ShiftTextForth(a, b, m);
    }
  }

  /** To the date `n - 1` days after `a`, from a number of days `n > 0`,
      the range has `n` days and starts on `a`'s text. */
  lemma RangeToEnd(a: Date, n: int, c: (string, string, string))
    requires Valid(a)
    requires n > 0 && Ordinal(a) + n - 1 <= MaxOrdinal
    ensures var b := Format(AddDays(a, n - 1).value);
            Settle("", b, Some(n), c) == Ok((Format(a), b)) &&
            Walk(Format(a), b).Ok? && |Walk(Format(a), b).value| == n
  {
    var b := AddDays(a, n - 1).value;
    BoundsToEnd(a, b, n, c);
    WalkDays(a, b);
  }

  /** The bounds from a last date and a number of days. */
  lemma BoundsToEnd(a: Date, b: Date, n: int, c: (string, string, string))
    requires Valid(a) && Valid(b)
    requires n > 0 && AddDays(a, n - 1) == Ok(b)
    ensures Settle("", Format(b), Some(n), c) == Ok((Format(a), Format(b)))
  {
    ShiftToStart(a, b, n - 1);
    ResolveFormat(b, c);
  }

  /** A last date shifted back by a number of days less one gives the text
      of the first date. */
  lemma ShiftToStart(a: Date, b: Date, m: int)
    requires Valid(a) && Valid(b) && m >= 0 && AddDays(a, m) == Ok(b)
    ensures ShiftDay(Format(b), -m) == Ok(Format(a))
  {
    if m > 0 {
      ShiftTextBack(a, b, m);
    } else {
      assert a == b;
    }
  }

  /** Between the texts of two dates in order, the range has a day for
      every day number from the first to the last. */
  lemma RangeBetween(a: Date, b: Date, c: (string, string, string))
    requires Valid(a) && Valid(b)
    requires Ordinal(a) <= Ordinal(b)
    ensures Settle(Format(a), Format(b), None, c) == Ok((Format(a), Format(b)))
    ensures Walk(Format(a), Format(b)).Ok?
    ensures |Walk(Format(a), Format(b)).value| == Ordinal(b) - Ordinal(a) + 1
  {
    ResolveFormat(a, c);
    ResolveFormat(b, c);
    FormatLess(a, b);
    OrdinalOrder(a, b);
    WalkDays(a, b);
  }

  /** Two dates out of order are refused. */
  lemma RangeReversed(a: Date, b: Date, c: (string, string, string))
    requires Valid(a) && Valid(b)
    requires Ordinal(a) > Ordinal(b)
    ensures Settle(Format(a), Format(b), None, c) == Err(AssertionError)
  {
    ResolveFormat(a, c);
    ResolveFormat(b, c);
    FormatLess(a, b);
    OrdinalOrder(a, b);
  }

  /** Three dates with consecutive day numbers are a day apart. */
  lemma Consecutive(a: Date, m: Date, b: Date)
    requires Valid(a) && Valid(m) && Valid(b)
    requires Ordinal(m) == Ordinal(a) + 1 && Ordinal(b) == Ordinal(m) + 1
    ensures AddDays(a, 1) == Ok(m) && AddDays(m, 1) == Ok(b) && AddDays(a, 2) == Ok(b)
  {
    AddDaysTo(a, 1, m);
    AddDaysTo(m, 1, b);
    AddDaysTo(a, 2, b);
  }

  /** Three days in a row make a walk of three texts. */
  lemma ThreeDays(a: Date, m: Date, b: Date)
    requires Valid(a) && Valid(m) && Valid(b)
    requires AddDays(a, 1) == Ok(m) && AddDays(m, 1) == Ok(b)
    ensures Walk(Format(a), Format(b)) == Ok([Format(a), Format(m), Format(b)])
  {
    WalkDays(a, b);
    ShiftToEnd(a, m, 1);
    ThreeTexts(Format(a), Format(m), Format(b));
  }

  /** A walk of three texts from `x` to `z` whose first step gives `y`. */
  lemma ThreeTexts(x: string, y: string, z: string)
    requires Walk(x, z).Ok? && |Walk(x, z).value| == 3 && Walk(x, z).value[2] == z
    requires ShiftDay(x, 1) == Ok(y)
    ensures Walk(x, z) == Ok([x, y, z])
  {
    var w := Walk(x, z).value;
    assert w[1] == y;
    assert w == [w[0], w[1], w[2]];
  }

  /** From 2018-02-03 to 2018-02-05 there are three days. */
  lemma EarlyFebruary(c: (string, string, string))
    ensures var a, b := Format(Date(2018, 2, 3)), Format(Date(2018, 2, 5));
            Settle(a, b, None, c) == Ok((a, b)) &&
            Walk(a, b) == Ok([a, Format(Date(2018, 2, 4)), b])
  {
    var a, m, b := Date(2018, 2, 3), Date(2018, 2, 4), Date(2018, 2, 5);
    In2018(a);
    In2018(m);
    In2018(b);
    RangeBetween(a, b, c);
    Consecutive(a, m, b);
    ThreeDays(a, m, b);
  }

  /** Three days from 2018-01-15 are 2018-01-15, 2018-01-16 and
      2018-01-17. */
  lemma MidJanuary(c: (string, string, string))
    ensures var a, b := Format(Date(2018, 1, 15)), Format(Date(2018, 1, 17));
            Settle(a, "", Some(3), c) == Ok((a, b)) &&
            Walk(a, b) == Ok([a, Format(Date(2018, 1, 16)), b])
  {
    var a, m, b := Date(2018, 1, 15), Date(2018, 1, 16), Date(2018, 1, 17);
    In2018(a);
    In2018(m);
    In2018(b);
    Consecutive(a, m, b);
    BoundsFromStart(a, b, 3, c);
    ThreeDays(a, m, b);
  }

  /** Three days to 2018-02-22 are 2018-02-20, 2018-02-21 and
      2018-02-22. */
  lemma LateFebruary(c: (string, string, string))
    ensures var a, b := Format(Date(2018, 2, 20)), Format(Date(2018, 2, 22));
            Settle("", b, Some(3), c) == Ok((a, b)) &&
            Walk(a, b) == Ok([a, Format(Date(2018, 2, 21)), b])
  {
    var a, m, b := Date(2018, 2, 20), Date(2018, 2, 21), Date(2018, 2, 22);
    In2018(a);
    In2018(m);
    In2018(b);
    Consecutive(a, m, b);
    BoundsToEnd(a, b, 3, c);
    ThreeDays(a, m, b);
  }

  /** An object of `DateRange`: its bounds and its days. */
  class DateRange {
    var startDate: string
    var endDate: string
    var days: seq<string>

    constructor()
      ensures startDate == "" && endDate == "" && days == []
    {
      startDate, endDate, days := "", "", [];
    }

    /** `DateRange.__init__(start_date, end_date, n_days)` with the date of
        `today` in the chosen time zone: the bounds, then the days from the
        first while it is before the last. */
    method Init(start: string, end: string, nDays: Option<int>, today: Date) returns (r: Result<()>)
      requires Valid(today)
      modifies this
      ensures Bounds(start, end, nDays, today).Err? ==> r == Err(Bounds(start, end, nDays, today).error)
      ensures Bounds(start, end, nDays, today).Ok? ==>
                var s, e := Bounds(start, end, nDays, today).value.0, Bounds(start, end, nDays, today).value.1;
                (r.Ok? <==> Walk(s, e).Ok?) &&
                (r.Err? ==> r.error == Walk(s, e).error) &&
                (r.Ok? ==> startDate == s && endDate == e && days == Walk(s, e).value)
    {
      r := SetBounds(Bounds(start, end, nDays, today));
    }

    /** The rest of `__init__` once the bounds are known: an error raised
        while finding them, or the bounds stored and the days listed. */
    method SetBounds(b: Result<(string, string)>) returns (r: Result<()>)
      modifies this
      ensures b.Err? ==> r == Err(b.error)
      ensures b.Ok? ==>
                (r.Ok? <==> Walk(b.value.0, b.value.1).Ok?) &&
                (r.Err? ==> r.error == Walk(b.value.0, b.value.1).error) &&
                (r.Ok? ==> startDate == b.value.0 && endDate == b.value.1 && days == Walk(b.value.0, b.value.1).value)
    {
      if b.Err? {
        return Err(b.error);
      }
      startDate := b.value.0;
      endDate := b.value.1;
      r := ListDays(b.value.0, b.value.1);
    }

    /** The loop of `__init__`: `days` from `s`, a day at a time while the
        day is before `e`. */
    method ListDays(s: string, e: string) returns (r: Result<()>)
      modifies this`days
      ensures r.Ok? <==> Walk(s, e).Ok?
      ensures r.Err? ==> r.error == Walk(s, e).error
      ensures r.Ok? ==> days == Walk(s, e).value
    {
      days := [s];
      var cur := s;
      ghost var listed: seq<string> := [];
      AfterNothing(Walk(s, e));
      while Less(cur, e)
        invariant days == listed + [cur]
        invariant Walk(s, e) == After(listed, Walk(cur, e))
        decreases Distance(cur)
      {
        var next := ShiftDay(cur, 1);
        if next.Err? {
          return Err(next.error);
        }
        StepCloser(cur);
        WalkStep(listed, cur, next.value, e);
        listed := listed + [cur];
        cur := next.value;
        days := days + [cur];
      }
      return Ok(());
    }

    /** `n_days`: the number of days. */
    function NDays(): nat
      reads this
    {
      |days|
    }

    /** `first`: the first day; `IndexError` when there is none. */
    function First(): (r: Result<string>)
      reads this
      ensures r.Ok? <==> |days| > 0
      ensures r.Ok? ==> r.value == days[0]
      ensures r.Err? ==> r.error == IndexError
    {
      if |days| == 0 then Err(IndexError) else Ok(days[0])
    }

    /** `last`: the last day; `IndexError` when there is none. */
    function Last(): (r: Result<string>)
      reads this
      ensures r.Ok? <==> |days| > 0
      ensures r.Ok? ==> r.value == days[|days| - 1]
      ensures r.Err? ==> r.error == IndexError
    {
      if |days| == 0 then Err(IndexError) else Ok(days[|days| - 1])
    }
  }
}
