/** `time_tracker.py`: start a named task, stop it, and append a log entry
    with its start, end and duration. The clock is a parameter: the
    moments a task starts and stops, and the time elapsed between them,
    are given to the functions here. */
module TimeTracker {
  import opened Wrappers
  import opened Text

  // ---------------------------------------------------------------------
  // format_duration
  // ---------------------------------------------------------------------

  const MicrosPerSecond := 1_000_000

  /** A `timedelta`, counted in microseconds; it is negative when the clock
      went back while a task ran. */
  datatype Duration = Duration(micros: int)

  /** The whole seconds of a duration, rounded down as `divmod` does. */
  function WholeSeconds(d: Duration): (w: int)
    ensures w * MicrosPerSecond <= d.micros < (w + 1) * MicrosPerSecond
  {
    d.micros / MicrosPerSecond
  }

  /** The hours, minutes and seconds `format_duration` prints: two
      floor-divisions of the whole seconds, by 3600 and then by 60. */
  function Clock(d: Duration): (hms: (int, nat, nat)) {
    var w := WholeSeconds(d);
    (w / 3600, (w % 3600) / 60, w % 60)
  }

  /** The three parts put together give back the whole seconds: minutes
      and seconds stay below 60, hours are not wrapped at 24, and the part
      of a second below it is dropped. */
  lemma ClockAddsUp(d: Duration)
    ensures var (h, m, s) := Clock(d);
            && h * 3600 + m * 60 + s == WholeSeconds(d)
            && m < 60 && s < 60
            && (d.micros >= 0 ==> h >= 0)
            && h * 3600 * MicrosPerSecond <= d.micros
  {
    var w := WholeSeconds(d);
    var (h, m, s) := Clock(d);
    assert w % 3600 == m * 60 + s;
  }

  /** `str(n)` for any integer: a minus sign before a negative number. */
  function IntToString(i: int): (r: string)
    ensures r != [] && ' ' !in r
    ensures i >= 0 <==> r[0] != '-'
  {
    if i >= 0 then
      var r := NatToString(i);
      assert IsDigit(r[0]);
      r
    else
      "-" + NatToString(-i)
  }

  lemma IntToStringInjective(a: int, b: int)
    requires IntToString(a) == IntToString(b)
    ensures a == b
  {
    if a < 0 {
      assert IntToString(a)[1..] == NatToString(-a);
      assert IntToString(b)[1..] == NatToString(-b);
      NatToStringInjective(-a, -b);
    } else {
      NatToStringInjective(a, b);
    }
  }

  /** "{h}h {m}m {s}s". */
  function DurationText(h: int, m: nat, s: nat): string {
    IntToString(h) + "h " + NatToString(m) + "m " + NatToString(s) + "s"
  }

  /** `format_duration`: three space-separated fields, the hours, the
      minutes and the seconds of `Clock`, each followed by its unit. */
  function FormatDuration(d: Duration): (r: string)
    ensures var (h, m, s) := Clock(d);
            Split(r, " ") == [IntToString(h) + "h", NatToString(m) + "m", NatToString(s) + "s"]
  {
    var (h, m, s) := Clock(d);
    DurationTextPieces(h, m, s);
    DurationText(h, m, s)
  }

  lemma NumeralHasNoSpace(n: nat)
    ensures ' ' !in NatToString(n)
  {
    var r := NatToString(n);
    assert forall i :: 0 <= i < |r| ==> IsDigit(r[i]);
  }

  lemma Regroup<T>(x: seq<T>, u: seq<T>, y: seq<T>, v: seq<T>, z: seq<T>, sp: seq<T>)
    ensures x + (u + sp) + y + (v + sp) + z == (x + u) + sp + ((y + v) + sp + z)
  {
  }

  /** Cutting the text at its spaces gives the three labelled numbers. */
  lemma {:induction false} DurationTextPieces(h: int, m: nat, s: nat)
    ensures Split(DurationText(h, m, s), " ")
            == [IntToString(h) + "h", NatToString(m) + "m", NatToString(s) + "s"]
  {
    var a, b, c := IntToString(h) + "h", NatToString(m) + "m", NatToString(s) + "s";
    NumeralHasNoSpace(m);
    NumeralHasNoSpace(s);
    assert ' ' !in a && ' ' !in b && ' ' !in c;
    assert DurationText(h, m, s) == a + [' '] + (b + [' '] + c) by {
      assert "h " == "h" + [' '] && "m " == "m" + [' '];
      Regroup(IntToString(h), "h", NatToString(m), "m", NatToString(s) + "s", [' ']);
    }
    SplitAtFirst(a, ' ', b + [' '] + c);
    SplitAtFirst(b, ' ', c);
    SplitWithoutSeparator(c, ' ');
  }

  /** The text shows exactly the whole seconds: two durations print the
      same exactly when they have the same whole seconds. */
  lemma FormatShowsWholeSeconds(d: Duration, e: Duration)
    ensures FormatDuration(d) == FormatDuration(e) <==> WholeSeconds(d) == WholeSeconds(e)
  {
    var (h, m, s) := Clock(d);
    var (h', m', s') := Clock(e);
    if FormatDuration(d) == FormatDuration(e) {
      DurationTextPieces(h, m, s);
      DurationTextPieces(h', m', s');
      var p, q := Split(FormatDuration(d), " "), Split(FormatDuration(e), " ");
      assert p[0][..|p[0]| - 1] == IntToString(h);
      assert q[0][..|q[0]| - 1] == IntToString(h');
      assert p[1][..|p[1]| - 1] == NatToString(m);
      assert q[1][..|q[1]| - 1] == NatToString(m');
      assert p[2][..|p[2]| - 1] == NatToString(s);
      assert q[2][..|q[2]| - 1] == NatToString(s');
      IntToStringInjective(h, h');
      NatToStringInjective(m, m');
      NatToStringInjective(s, s');
      ClockAddsUp(d);
      ClockAddsUp(e);
    }
  }

  // ---------------------------------------------------------------------
  // start_task, stop_task and log_task
  // ---------------------------------------------------------------------

  /** A `datetime` as strftime sees it. */
  datatype DateTime = DateTime(year: nat, month: nat, day: nat, hour: nat, minute: nat, second: nat)
  {
    predicate Valid() {
      1 <= month <= 12 && 1 <= day <= 31 && hour < 24 && minute < 60 && second < 60
    }
  }

  /** `strftime('%d-%m-%Y %H:%M:%S')`. */
  function Stamp(t: DateTime): (r: string)
    requires t.Valid()
    ensures '\n' !in r
  {
    var r := Pad2(t.day) + "-" + Pad2(t.month) + "-" + NatToString(t.year) + " "
      + Pad2(t.hour) + ":" + Pad2(t.minute) + ":" + Pad2(t.second);
    assert forall i :: 0 <= i < |r| ==> r[i] != '\n' by {
      var y := NatToString(t.year);
      assert forall i :: 0 <= i < |y| ==> IsDigit(y[i]);
    }
    r
  }

  /** `start_task`: the stripped name and the starting moment, or nothing
      when the name is empty after stripping. */
  function StartTask(answer: string, now: DateTime): (r: Option<(string, DateTime)>)
    ensures r.Some? ==> r.value.0 == Strip(answer) && r.value.1 == now
  {
    var name := Strip(answer);
    if name == [] then None else Some((name, now))
  }

  /** A task is refused exactly when its name is blank. */
  lemma BlankNameRefused(answer: string, now: DateTime)
    ensures StartTask(answer, now).None? <==> forall i :: 0 <= i < |answer| ==> IsSpace(answer[i])
  {
    StripEmptyIffBlank(answer);
  }

  /** The text written by writing each line followed by a newline. */
  function Written(lines: seq<string>): string {
    if lines == [] then [] else lines[0] + "\n" + Written(lines[1..])
  }

  /** Cutting written text at its newlines gives the lines back, and an
      empty remainder after the last newline. */
  lemma {:induction false} WrittenSplitsBack(lines: seq<string>)
    requires forall i :: 0 <= i < |lines| ==> '\n' !in lines[i]
    ensures Split(Written(lines), "\n") == lines + [""]
  {
    if lines == [] {
      assert Split([], "\n") == [[]];
    } else {
      WrittenSplitsBack(lines[1..]);
      SplitAtFirst(lines[0], '\n', Written(lines[1..]));
      assert [lines[0]] + (lines[1..] + [""]) == lines + [""];
    }
  }

  /** The lines `log_task` writes for one task. */
  function LogLines(name: string, start: DateTime, end: DateTime, duration: string): (lines: seq<string>)
    requires start.Valid() && end.Valid()
  {
    [ "Task: " + name,
      "Start Time: " + Stamp(start),
      "End Time: " + Stamp(end),
      "Duration: " + duration,
      Repeat('=', 40) ]
  }

  /** The text `log_task` appends for one task. */
  function LogEntry(name: string, start: DateTime, end: DateTime, duration: string): string
    requires start.Valid() && end.Valid()
  {
    Written(LogLines(name, start, end, duration))
  }

  /** An entry reads back as four labelled lines and a rule of forty "=",
      provided the name and the duration are single lines. */
  lemma LogEntryLines(name: string, start: DateTime, end: DateTime, duration: string)
    requires start.Valid() && end.Valid()
    requires '\n' !in name && '\n' !in duration
    ensures var lines := Split(LogEntry(name, start, end, duration), "\n");
            && |lines| == 6 && lines[5] == []
            && lines[0] == "Task: " + name && lines[3] == "Duration: " + duration
            && lines[1] == "Start Time: " + Stamp(start) && lines[2] == "End Time: " + Stamp(end)
            && lines[4] == Repeat('=', 40)
  {
    var lines := LogLines(name, start, end, duration);
    assert forall i :: 0 <= i < |lines| ==> '\n' !in lines[i];
    WrittenSplitsBack(lines);
  }

  /** `stop_task` for a task that ran for `elapsed`: the entry appended to
      the log, and the duration text it reports. */
  function StopTask(name: string, start: DateTime, end: DateTime, elapsed: Duration): (r: (string, string))
    requires start.Valid() && end.Valid()
    ensures r.0 == LogEntry(name, start, end, r.1)
    ensures r.1 == FormatDuration(elapsed)
  {
    var text := FormatDuration(elapsed);
    (LogEntry(name, start, end, text), text)
  }

  /** The log gains one entry per stopped task, each readable back. */
  lemma StoppedTaskLogged(name: string, start: DateTime, end: DateTime, elapsed: Duration)
    requires start.Valid() && end.Valid() && '\n' !in name
    ensures var (entry, text) := StopTask(name, start, end, elapsed);
            var lines := Split(entry, "\n");
            |lines| == 6 && lines[3] == "Duration: " + text
  {
    var text := FormatDuration(elapsed);
    var (h, m, s) := Clock(elapsed);
    NumeralHasNoSpace(m);
    assert '\n' !in text by {
      assert '\n' !in IntToString(h) by {
        if h >= 0 {
          var r := NatToString(h);
          assert forall i :: 0 <= i < |r| ==> IsDigit(r[i]);
        } else {
          var r := NatToString(-h);
          assert forall i :: 0 <= i < |r| ==> IsDigit(r[i]);
        }
      }
      var mm, ss := NatToString(m), NatToString(s);
      assert forall i :: 0 <= i < |mm| ==> IsDigit(mm[i]);
      assert forall i :: 0 <= i < |ss| ==> IsDigit(ss[i]);
    }
    LogEntryLines(name, start, end, text);
  }
}
