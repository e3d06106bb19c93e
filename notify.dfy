/** The status file and alert policy of src/coyote/notify.py: the record
    `log_notify` writes, the decision `should_send_alert` makes from the
    previous record, and the status the `notify` decorator reports for a
    call of the function it wraps.

    The clock is a parameter: `log_notify` is given the moment it stamps,
    and `should_send_alert` is given `lapseOf`, which maps the date and
    time text of the previous record to the seconds elapsed since then, or
    to `None` where `arrow.get` cannot parse it.  The previous record is
    read in text mode, with universal newlines.  Exception classes are
    names, with subclassing given as a relation `isSub`.  Seconds and hours
    are exact reals.
 */
module Notify {
  import opened Wrappers
  import opened Strs

  // ---------------------------------------------------------------------
  // log_notify

  /** A UTC moment, as `arrow.utcnow()` yields it. */
  datatype Moment = Moment(year: nat, month: nat, day: nat, hour: nat, minute: nat, second: nat, micro: nat)

  /** `YYYY-MM-DD`. */
  function DateText(m: Moment): string {
    Padded(m.year, 4) + "-" + Padded(m.month, 2) + "-" + Padded(m.day, 2)
  }

  /** `HH:mm:ss.SSSSSS`. */
  function TimeText(m: Moment): string {
    Padded(m.hour, 2) + ":" + Padded(m.minute, 2) + ":" + Padded(m.second, 2) + "." + Padded(m.micro, 6)
  }

  /** The date and the time are digits and separators. */
  lemma MomentPrintable(m: Moment)
    ensures |DateText(m)| > 0 && Printable(DateText(m))
    ensures |TimeText(m)| > 0 && Printable(TimeText(m))
  {
    var d := DateText(m);
    var t := TimeText(m);
    assert forall i :: 0 <= i < |d| ==> d[i] == '-' || IsDigit(d[i]);
    assert forall i :: 0 <= i < |t| ==> t[i] == ':' || t[i] == '.' || IsDigit(t[i]);
  }

  /** The second line of a record: the moment formatted, then ` UTC`. */
  function Stamp(m: Moment): (r: string)
    ensures '\n' !in r && '\r' !in r
    ensures var ws := Words(r); |ws| >= 2 && ws[0] == DateText(m) && ws[1] == TimeText(m)
  {
    var d := DateText(m);
    var t := TimeText(m);
    MomentPrintable(m);
    PrintableWord(d);
    PrintableWord(t);
    WordsTwo(d, t, "UTC");
    var r := d + " " + (t + " " + "UTC");
    NoNewline(d, t);
    r
  }

  lemma NoNewline(d: string, t: string)
    requires Printable(d) && Printable(t)
    ensures '\n' !in d + " " + (t + " " + "UTC") && '\r' !in d + " " + (t + " " + "UTC")
  {
    assert '\n' !in d && '\n' !in t;
    assert '\r' !in d && '\r' !in t;
  }

  /** The info of a record: new lines turned into spaces. */
  function OneLine(info: string): (r: string)
    ensures |r| == |info| && '\n' !in r
  {
    ReplaceChar(info, '\n', ' ')
  }

  /** The content `log_notify(filename, status, info)` writes at moment
      `m`: the status, the stamp and the info, one per line. */
  function Record(status: string, m: Moment, info: string): (r: string)
    ensures |r| == |status| + |Stamp(m)| + |info| + 2
    ensures StartsWith(r, status)
  {
    JoinThree(status, Stamp(m), OneLine(info));
    Join("\n", [status, Stamp(m), OneLine(info)])
  }

  /** A record reads back as three lines: the status, the stamp and the
      info on one line. */
  lemma RecordLines(status: string, m: Moment, info: string)
    requires '\n' !in status
    ensures SplitChar(Record(status, m, info), '\n') == [status, Stamp(m), OneLine(info)]
  {
    var parts := [status, Stamp(m), OneLine(info)];
    assert forall k :: 0 <= k < |parts| ==> '\n' !in parts[k] by {
      assert parts[0] == status && parts[1] == Stamp(m) && parts[2] == OneLine(info);
    }
    SplitCharJoin(parts, '\n');
    assert Record(status, m, info) == Join("\n", parts);
  }

  // ---------------------------------------------------------------------
  // should_send_alert

  /** `open(ff).read()`: text mode reads with universal newlines, so
      `"\r\n"` and a lone `"\r"` each become `"\n"`. */
  function ReadText(s: string): (r: string)
    ensures |r| <= |s|
    decreases |s|
  {
    if |s| == 0 then ""
    else if s[0] == '\r' then
      "\n" + ReadText(if |s| >= 2 && s[1] == '\n' then s[2..] else s[1..])
    else [s[0]] + ReadText(s[1..])
  }

  /** No carriage return survives the read; text without one reads back
      unchanged, and text with one reads with a line break. */
  lemma {:induction false} ReadTextMeaning(s: string)
    ensures '\r' !in ReadText(s)
    ensures '\r' !in s ==> ReadText(s) == s
    ensures '\r' in s ==> '\n' in ReadText(s)
    decreases |s|
  {
    if |s| > 0 {
      var t := if s[0] == '\r' && |s| >= 2 && s[1] == '\n' then s[2..] else s[1..];
      ReadTextMeaning(t);
      if s[0] != '\r' {
        assert ReadText(s) == [s[0]] + ReadText(t);
        assert '\r' in s ==> '\r' in t by {
          if '\r' in s {
            var k :| 0 <= k < |s| && s[k] == '\r';
            assert t[k - 1] == '\r';
          }
        }
        assert '\r' !in s ==> s == [s[0]] + t;
      } else {
        assert ReadText(s) == "\n" + ReadText(t);
      }
    }
  }

  /** A character other than a carriage return reads as itself. */
  lemma {:induction false} ReadTextCons(c: char, s: string)
    requires c != '\r'
    ensures ReadText([c] + s) == [c] + ReadText(s)
  {
    assert ([c] + s)[0] == c && ([c] + s)[1..] == s;
  }

  /** Text without a carriage return reads back as it is, whatever
      follows it. */
  lemma {:induction false} ReadTextPrefix(a: string, b: string)
    requires '\r' !in a
    ensures ReadText(a + b) == a + ReadText(b)
    decreases |a|
  {
    if |a| == 0 {
      assert a + b == b;
    } else {
      assert a + b == [a[0]] + (a[1..] + b);
      assert a[0] != '\r';
      ReadTextCons(a[0], a[1..] + b);
      ReadTextPrefix(a[1..], b);
      assert a == [a[0]] + a[1..];
    }
  }

  /** The part of the decision that depends on time only: `lapse` is the
      number of seconds since the previous record, or `None` where its
      stamp does not parse. */
  function TimeDecision(status: string, lapse: Option<real>, silentSeconds: real, okSilentHours: real): (r: Result<bool>)
    ensures lapse.None? <==> r == Err(ParserError)
    ensures lapse.Some? && lapse.value < silentSeconds ==> r == Ok(false)
    ensures lapse.Some? && lapse.value >= silentSeconds && status != "OK" ==> r == Ok(true)
    ensures lapse.Some? && lapse.value >= silentSeconds && status == "OK" ==>
              r == Ok(lapse.value > okSilentHours * 3600.0)
  {
    match lapse
    case None => Err(ParserError)
    case Some(l) =>
      if l < silentSeconds then Ok(false)
      else if status != "OK" then Ok(true)
      else Ok(l > okSilentHours * 3600.0)
  }

  /** The previous record is usable: three lines, a date line of at least
      two words. */
  predicate WellFormed(content: string) {
    var lines := SplitChar(content, '\n');
    |lines| == 3 && |Words(lines[1])| >= 2
  }

  /** The date and time words of a usable record. */
  function StampOf(content: string): string
    requires WellFormed(content)
  {
    var ws := Words(SplitChar(content, '\n')[1]);
    ws[0] + " " + ws[1]
  }

  /** Whether a usable record has the given status and (one-line) info. */
  predicate Unchanged(content: string, status: string, info: string)
    requires WellFormed(content)
  {
    var lines := SplitChar(content, '\n');
    lines[0] == status && lines[2] == OneLine(info)
  }

  /** `should_send_alert(status, ff, silent_seconds, ok_silent_hours,
      info)`: `file` is the content of `ff`, `None` when it does not exist;
      it is split into lines as read in text mode.  A stamp `arrow.get`
      cannot parse raises, here `Err(ParserError)`. */
  function ShouldSendAlert(status: string, file: Option<string>, silentSeconds: real, okSilentHours: real,
                           info: string, lapseOf: string -> Option<real>): (r: Result<bool>)
    ensures file.None? ==> r == Ok(true)
    ensures file.Some? && !WellFormed(ReadText(file.value)) ==> r == Ok(true)
    ensures file.Some? && WellFormed(ReadText(file.value)) && !Unchanged(ReadText(file.value), status, info) ==>
              r == Ok(true)
    ensures file.Some? && WellFormed(ReadText(file.value)) && Unchanged(ReadText(file.value), status, info) ==>
              r == TimeDecision(status, lapseOf(StampOf(ReadText(file.value))), silentSeconds, okSilentHours)
  {
    match file
    case None => Ok(true)
    case Some(raw) =>
      var content := ReadText(raw);
      var lines := SplitChar(content, '\n');
      if |lines| != 3 then Ok(true)
      else
        var ws := Words(lines[1]);
        if |ws| < 2 then Ok(true)
        else if lines[0] != status then Ok(true)
        else if lines[2] != OneLine(info) then Ok(true)
        else TimeDecision(status, lapseOf(ws[0] + " " + ws[1]), silentSeconds, okSilentHours)
  }

  /** Three lines joined by line breaks. */
  lemma {:induction false} JoinThree(a: string, b: string, c: string)
    ensures Join("\n", [a, b, c]) == a + ("\n" + (b + ("\n" + c)))
  {
    assert [a, b, c][1..] == [b, c];
    assert [b, c][1..] == [c];
    assert Join("\n", [b, c]) == b + "\n" + c;
    assert Join("\n", [a, b, c]) == a + "\n" + (b + "\n" + c);
    assert b + "\n" + c == b + ("\n" + c);
    assert a + "\n" + (b + ("\n" + c)) == a + ("\n" + (b + ("\n" + c)));
  }

  /** A record is its status, then the stamp and the info. */
  lemma RecordParts(status: string, m: Moment, info: string)
    ensures Record(status, m, info) == status + ("\n" + (Stamp(m) + ("\n" + OneLine(info))))
  {
    JoinThree(status, Stamp(m), OneLine(info));
  }

  /** A record without a carriage return reads back as written. */
  lemma RecordReadsBack(status: string, m: Moment, info: string)
    requires '\r' !in status && '\r' !in info
    ensures ReadText(Record(status, m, info)) == Record(status, m, info)
  {
    var r := Record(status, m, info);
    RecordParts(status, m, info);
    assert '\r' !in OneLine(info);
    NoReturnJoined(status, Stamp(m), OneLine(info));
    ReadTextMeaning(r);
  }

  /** Three texts without a carriage return, joined by new lines, hold
      none either. */
  lemma NoReturnJoined(a: string, b: string, c: string)
    requires '\r' !in a && '\r' !in b && '\r' !in c
    ensures '\r' !in a + ("\n" + (b + ("\n" + c)))
  {
  }

  /** Against a record written by `log_notify`, the same status and info
      without a carriage return are decided by the time elapsed since that
      record alone. */
  lemma RepeatByTime(status: string, m: Moment, info: string, silentSeconds: real, okSilentHours: real,
                     lapseOf: string -> Option<real>)
    requires '\n' !in status && '\r' !in status && '\r' !in info
    ensures ShouldSendAlert(status, Some(Record(status, m, info)), silentSeconds, okSilentHours, info, lapseOf)
            == TimeDecision(status, lapseOf(DateText(m) + " " + TimeText(m)), silentSeconds, okSilentHours)
  {
    RecordReadsBack(status, m, info);
    RecordLines(status, m, info);
  }

  /** Two lines without carriage returns read back as they are, whatever
      follows them. */
  lemma {:induction false} ReadTwoLines(a: string, b: string, t: string)
    requires '\r' !in a && '\r' !in b
    ensures ReadText(a + ("\n" + (b + ("\n" + t)))) == a + ("\n" + (b + ("\n" + ReadText(t))))
  {
    ReadTextPrefix(a, "\n" + (b + ("\n" + t)));
    ReadTextCons('\n', b + ("\n" + t));
    ReadTextPrefix(b, "\n" + t);
    ReadTextCons('\n', t);
  }

  /** Two lines ahead of `u` add two parts to its split. */
  lemma {:induction false} SplitTwoLines(a: string, b: string, u: string)
    requires '\n' !in a && '\n' !in b
    ensures |SplitChar(a + ("\n" + (b + ("\n" + u))), '\n')| == 2 + |SplitChar(u, '\n')|
  {
    SplitCharCons(a, b + ("\n" + u), '\n');
    SplitCharCons(b, u, '\n');
  }

  /** Two lines without carriage returns read back as two more parts,
      whatever follows them. */
  lemma {:induction false} TwoLinesAhead(a: string, b: string, t: string)
    requires '\n' !in a && '\r' !in a && '\n' !in b && '\r' !in b
    ensures |SplitChar(ReadText(a + ("\n" + (b + ("\n" + t)))), '\n')| == 2 + |SplitChar(ReadText(t), '\n')|
  {
    ReadTwoLines(a, b, t);
    SplitTwoLines(a, b, ReadText(t));
  }

  /** A line with a carriage return reads back as at least two lines. */
  lemma {:induction false} ReturnBreaks(info: string)
    requires '\r' in info
    ensures |SplitChar(ReadText(OneLine(info)), '\n')| >= 2
  {
    var line := OneLine(info);
    assert '\r' in line by {
      var k :| 0 <= k < |info| && info[k] == '\r';
      assert line[k] == '\r';
    }
    ReadTextMeaning(line);
  }

  /** Info holding a carriage return reads back as more than three lines,
      since `log_notify` replaces only `'\n'`. */
  lemma ReturnSplitsMore(prior: string, m: Moment, oldInfo: string)
    requires '\n' !in prior && '\r' !in prior && '\r' in oldInfo
    ensures |SplitChar(ReadText(Record(prior, m, oldInfo)), '\n')| > 3
  {
    RecordParts(prior, m, oldInfo);
    TwoLinesAhead(prior, Stamp(m), OneLine(oldInfo));
    ReturnBreaks(oldInfo);
  }

  /** Against a record whose info holds a carriage return, any call is
      alerted, however little time has passed. */
  lemma ReturnInInfoAlerts(prior: string, m: Moment, oldInfo: string, status: string, info: string,
                           silentSeconds: real, okSilentHours: real, lapseOf: string -> Option<real>)
    requires '\n' !in prior && '\r' !in prior && '\r' in oldInfo
    ensures ShouldSendAlert(status, Some(Record(prior, m, oldInfo)), silentSeconds, okSilentHours, info, lapseOf)
            == Ok(true)
  {
    ReturnSplitsMore(prior, m, oldInfo);
  }

  /** Against a record written by `log_notify`, another status, or info
      that differs once on one line, is always alerted. */
  lemma ChangeAlerts(prior: string, m: Moment, oldInfo: string, status: string, info: string,
                     silentSeconds: real, okSilentHours: real, lapseOf: string -> Option<real>)
    requires '\n' !in prior && '\r' !in prior
    requires prior != status || OneLine(oldInfo) != OneLine(info)
    ensures ShouldSendAlert(status, Some(Record(prior, m, oldInfo)), silentSeconds, okSilentHours, info, lapseOf) == Ok(true)
  {
    if '\r' in oldInfo {
      ReturnSplitsMore(prior, m, oldInfo);
    } else {
      RecordReadsBack(prior, m, oldInfo);
      RecordLines(prior, m, oldInfo);
    }
  }

  /** Once an alert is due it stays due as more time passes. */
  lemma AlertStaysDue(status: string, l1: real, l2: real, silentSeconds: real, okSilentHours: real)
    requires l1 <= l2
    requires TimeDecision(status, Some(l1), silentSeconds, okSilentHours) == Ok(true)
    ensures TimeDecision(status, Some(l2), silentSeconds, okSilentHours) == Ok(true)
  {
  }

  // ---------------------------------------------------------------------
  // notify(...)

  /** The `exception_classes` argument of `notify`: nothing (or an empty
      list), one class, or a list or tuple of classes. */
  datatype ClassesArg = NoClasses | OneClass(cls: string) | ManyClasses(classes: seq<string>)

  /** Every name is a subclass of `Exception`. */
  predicate AllExceptions(cs: seq<string>, isSub: (string, string) -> bool) {
    forall i :: 0 <= i < |cs| ==> isSub(cs[i], "Exception")
  }

  /** The normalisation of `exception_classes` as the source writes it: for
      a list or a tuple, `issubclass(exception_classes, Exception)` raises
      `TypeError`, since its first argument must be a class. */
  function ClassesAsWritten(arg: ClassesArg, isSub: (string, string) -> bool): (r: Result<seq<string>>)
    ensures arg.ManyClasses? && |arg.classes| > 0 ==> r == Err(TypeError)
  {
    match arg
    case NoClasses => Ok(["Exception"])
    case OneClass(c) => if isSub(c, "Exception") then Ok([c]) else Err(AssertionError)
    case ManyClasses(cs) => if |cs| == 0 then Ok(["Exception"]) else Err(TypeError)
  }

  /** The documented list of classes is refused by the code as written. */
  lemma ListOfClassesRefused(isSub: (string, string) -> bool)
    ensures ClassesAsWritten(ManyClasses(["ValueError", "KeyError"]), isSub) == Err(TypeError)
  {
  }

  /** The normalisation as documented: nothing means `Exception`, one class
      or a list or tuple of classes is kept when each is an exception
      class, and is refused otherwise. */
  function Classes(arg: ClassesArg, isSub: (string, string) -> bool): (r: Result<seq<string>>)
    ensures r.Ok? ==> (|r.value| > 0 && AllExceptions(r.value, isSub)) || r.value == ["Exception"]
    ensures arg.NoClasses? ==> r == Ok(["Exception"])
    ensures arg.OneClass? ==> r == (if isSub(arg.cls, "Exception") then Ok([arg.cls]) else Err(AssertionError))
    ensures arg.ManyClasses? && |arg.classes| > 0 ==>
              r == (if AllExceptions(arg.classes, isSub) then Ok(arg.classes) else Err(AssertionError))
  {
    match arg
    case NoClasses => Ok(["Exception"])
    case OneClass(c) => if isSub(c, "Exception") then Ok([c]) else Err(AssertionError)
    case ManyClasses(cs) =>
      if |cs| == 0 then Ok(["Exception"])
      else if AllExceptions(cs, isSub) then Ok(cs)
      else Err(AssertionError)
  }

  /** `silent_seconds` and `ok_silent_hours` after their defaults: one
      second, and one minute in debug mode or 23.9 hours otherwise. */
  function Silences(silentSeconds: Option<real>, okSilentHours: Option<real>, debug: bool): (r: (real, real))
    ensures silentSeconds.Some? ==> r.0 == silentSeconds.value
    ensures silentSeconds.None? ==> r.0 == 1.0
    ensures okSilentHours.Some? ==> r.1 == okSilentHours.value
    ensures okSilentHours.None? ==> r.1 == if debug then 1.0 / 60.0 else 23.9
  {
    (if silentSeconds.Some? then silentSeconds.value else 1.0,
     if okSilentHours.Some? then okSilentHours.value else if debug then 1.0 / 60.0 else 23.9)
  }

  // ---------------------------------------------------------------------
  // decorated

  /** How the wrapped function ended: a value, or an exception of a
      class. */
  datatype Outcome<T> = Returned(value: T) | Raised(cls: string)

  /** A call of the decorated function: the status it records, whether it
      alerts, the new content of the status file (`None`: not written) and
      how the call ends. */
  datatype Call<T> = Call(status: string, alerted: bool, written: Option<string>, outcome: Outcome<T>)

  /** The configuration of one `notify` decorator and the world one call
      sees: the status file before the call, the moment stamped and the
      elapsed-time oracle. */
  datatype Setting = Setting(classes: seq<string>, isSub: (string, string) -> bool, file: Option<string>,
                             silentSeconds: real, okSilentHours: real, message: string, now: Moment,
                             lapseOf: string -> Option<real>)

  /** `except exception_classes` matches the class. */
  predicate Captures(cs: seq<string>, cls: string, isSub: (string, string) -> bool) {
    exists i :: 0 <= i < |cs| && isSub(cls, cs[i])
  }

  /** The alert decision for a status in a setting. */
  function Alert(st: Setting, status: string): Result<bool> {
    ShouldSendAlert(status, st.file, st.silentSeconds, st.okSilentHours, st.message, st.lapseOf)
  }

  /** The two `except` branches: `ERROR` for a captured class, `OK`
      otherwise; either way the exception is raised again, unless the alert
      decision itself raises. */
  function Handle<T>(st: Setting, cls: string): (r: Call<T>)
    ensures r.status == if Captures(st.classes, cls, st.isSub) then "ERROR" else "OK"
    ensures Alert(st, r.status).Ok? ==>
              r == Call(r.status, Alert(st, r.status).value, Some(Record(r.status, st.now, st.message)), Raised(cls))
    ensures Alert(st, r.status).Err? ==> r == Call(r.status, false, None, Raised("ParserError"))
  {
    var status := if Captures(st.classes, cls, st.isSub) then "ERROR" else "OK";
    match Alert(st, status)
    case Err(_) => Call(status, false, None, Raised("ParserError"))
    case Ok(b) => Call(status, b, Some(Record(status, st.now, st.message)), Raised(cls))
  }

  /** `decorated(*args, **kwargs)` for a call of the wrapped function that
      ended with `outcome`.  The status is `OK` on success and for an
      exception the decorator does not capture, `ERROR` for one it
      captures; an exception is always raised again.  Unless the alert
      decision raises, the record written is the status, the stamp and the
      message.  An exception raised by the alert decision in the `try` body
      is handled like one of the function's; one raised in an `except`
      branch escapes and nothing is written. */
  function Decorated<T>(st: Setting, outcome: Outcome<T>): (r: Call<T>)
    ensures outcome.Returned? && Alert(st, "OK").Ok? ==> r.status == "OK" && r.outcome == outcome
    ensures outcome.Returned? && Alert(st, "OK").Err? ==>
              r.status == if Captures(st.classes, "ParserError", st.isSub) then "ERROR" else "OK"
    ensures outcome.Raised? ==>
              r.outcome.Raised? && r.status == if Captures(st.classes, outcome.cls, st.isSub) then "ERROR" else "OK"
    ensures Alert(st, r.status).Ok? ==>
              r.alerted == Alert(st, r.status).value && r.written == Some(Record(r.status, st.now, st.message)) &&
              (outcome.Raised? ==> r.outcome == outcome)
    ensures Alert(st, r.status).Err? ==> r.written.None? && r.outcome == Raised("ParserError")
  {
    match outcome
    case Raised(cls) => Handle(st, cls)
    case Returned(_) =>
      match Alert(st, "OK")
      case Err(_) => Handle(st, "ParserError")
      case Ok(b) => Call("OK", b, Some(Record("OK", st.now, st.message)), outcome)
  }

  lemma StatusesOneLine()
    ensures '\n' !in "OK" && '\n' !in "ERROR"
    ensures '\r' !in "OK" && '\r' !in "ERROR"
  {
  }

  /** A written status file holds a record of `OK` or `ERROR`. */
  lemma WrittenRecord<T>(st: Setting, outcome: Outcome<T>)
    requires Decorated(st, outcome).written.Some?
    ensures var r := Decorated(st, outcome);
      (r.status == "OK" || r.status == "ERROR") && r.written == Some(Record(r.status, st.now, st.message))
  {
  }

  /** A call right after another with the same status and message is
      decided by the time between them alone. */
  lemma SecondCallByTime<T>(st: Setting, outcome: Outcome<T>, st2: Setting, outcome2: Outcome<T>)
    requires Decorated(st, outcome).written.Some?
    requires st2.file == Decorated(st, outcome).written && st2.message == st.message
    requires '\r' !in st.message
    requires Decorated(st2, outcome2).status == Decorated(st, outcome).status
    ensures var s := Decorated(st, outcome).status;
      TimeDecision(s, st2.lapseOf(DateText(st.now) + " " + TimeText(st.now)), st2.silentSeconds, st2.okSilentHours)
        == (if Alert(st2, s).Ok? then Ok(Decorated(st2, outcome2).alerted) else Err(ParserError))
  {
    var s := Decorated(st, outcome).status;
    WrittenRecord(st, outcome);
    assert '\n' !in s && '\r' !in s by {
      StatusesOneLine();
    }
    RepeatByTime(s, st.now, st.message, st2.silentSeconds, st2.okSilentHours, st2.lapseOf);
  }
}
