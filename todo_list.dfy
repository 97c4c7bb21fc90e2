/** The to-do list manager: tasks are records of seven text fields kept in
    a list that the menu actions edit in place. Adding validates the due
    date and the start/end times the way `datetime.strptime` does. */
module TodoList {
  import opened Wrappers
  import opened Text

  datatype Task = Task(
    id: string,
    description: string,
    priority: string,
    dueDate: string,
    startTime: string,
    endTime: string,
    status: string)

  const Pending: string := "Pending"
  const Completed: string := "Completed"

  // ---------------------------------------------------------------------
  // strptime(s, "%H:%M") and strptime(s, "%d-%m-%Y")
  //
  // CPython's _strptime turns each directive into a regular expression:
  //   %H  2[0-3]|[0-1]\d|\d        %M  [0-5]\d|\d
  //   %d  3[01]|[12]\d|0[1-9]|[1-9]| [1-9]
  //   %m  1[0-2]|0[1-9]|[1-9]      %Y  \d\d\d\d
  // and rejects a match that leaves input over. None of the fields can
  // contain the literal separator, so a string matches exactly when
  // splitting it at the separator gives one piece per field and each piece
  // is in its field's language. A date must then exist in the calendar.
  // ---------------------------------------------------------------------

  datatype Date = Date(day: nat, month: nat, year: nat)

  datatype Clock = Clock(hour: nat, minute: nat)

  function TwoDigitValue(t: string): (v: nat)
    requires |t| == 2 && AllDigits(t)
    ensures v < 100 && Pad2(v) == t
  {
    DigitValue(t[0]) * 10 + DigitValue(t[1])
  }

  /** A one-digit numeral: `\d` (or `[1-9]` when `nonZero`). */
  predicate IsSingleDigit(t: string, nonZero: bool) {
    |t| == 1 && IsDigit(t[0]) && (nonZero ==> t[0] != '0')
  }

  /** The `%H` field: two digits up to 23, or a single digit. */
  function ParseHour(t: string): (r: Option<nat>)
    ensures r.Some? ==> r.value < 24
  {
    if |t| == 2 && AllDigits(t) && TwoDigitValue(t) < 24 then Some(TwoDigitValue(t))
    else if IsSingleDigit(t, false) then Some(DigitValue(t[0]))
    else None
  }

  /** The `%M` field: two digits up to 59, or a single digit. */
  function ParseMinute(t: string): (r: Option<nat>)
    ensures r.Some? ==> r.value < 60
  {
    if |t| == 2 && AllDigits(t) && TwoDigitValue(t) < 60 then Some(TwoDigitValue(t))
    else if IsSingleDigit(t, false) then Some(DigitValue(t[0]))
    else None
  }

  /** The `%d` field: "01".."31", "1".."9", or " 1".." 9". */
  function ParseDay(t: string): (r: Option<nat>)
    ensures r.Some? ==> 1 <= r.value <= 31
  {
    if |t| == 2 && AllDigits(t) && 1 <= TwoDigitValue(t) <= 31 then Some(TwoDigitValue(t))
    else if IsSingleDigit(t, true) then Some(DigitValue(t[0]))
    else if |t| == 2 && t[0] == ' ' && IsSingleDigit(t[1..], true) then Some(DigitValue(t[1]))
    else None
  }

  /** The `%m` field: "01".."12" or "1".."9". */
  function ParseMonth(t: string): (r: Option<nat>)
    ensures r.Some? ==> 1 <= r.value <= 12
  {
    if |t| == 2 && AllDigits(t) && 1 <= TwoDigitValue(t) <= 12 then Some(TwoDigitValue(t))
    else if IsSingleDigit(t, true) then Some(DigitValue(t[0]))
    else None
  }

  /** Four-digit zero-padded year, as `%Y` prints it. */
  function Pad4(y: nat): (t: string)
    requires y < 10000
    ensures |t| == 4 && AllDigits(t)
  {
    [DigitChar(y / 1000), DigitChar(y / 100 % 10), DigitChar(y / 10 % 10), DigitChar(y % 10)]
  }

  lemma DivModTen(x: nat, d: nat)
    requires d < 10
    ensures (10 * x + d) / 10 == x && (10 * x + d) % 10 == d
  {
  }

  /** Four decimal digits and the number they spell determine each other. */
  lemma FourDigits(a: nat, b: nat, c: nat, d: nat)
    requires a < 10 && b < 10 && c < 10 && d < 10
    ensures var y := a * 1000 + b * 100 + c * 10 + d;
            y / 1000 == a && y / 100 % 10 == b && y / 10 % 10 == c && y % 10 == d
  {
    var y := a * 1000 + b * 100 + c * 10 + d;
    DivModTen(a * 100 + b * 10 + c, d);
    DivModTen(a * 10 + b, c);
    DivModTen(a, b);
    assert y / 10 == a * 100 + b * 10 + c;
    assert y / 100 == (y / 10) / 10;
    assert y / 1000 == (y / 100) / 10;
  }

  /** The `%Y` field: exactly four digits. */
  function ParseYear(t: string): (r: Option<nat>)
    ensures r.Some? ==> r.value < 10000 && Pad4(r.value) == t
  {
    if |t| == 4 && AllDigits(t) then
      var y := DigitValue(t[0]) * 1000 + DigitValue(t[1]) * 100 + DigitValue(t[2]) * 10 + DigitValue(t[3]);
      FourDigits(DigitValue(t[0]), DigitValue(t[1]), DigitValue(t[2]), DigitValue(t[3]));
      Some(y)
    else None
  }

  predicate IsLeapYear(y: nat) {
    y % 4 == 0 && (y % 100 != 0 || y % 400 == 0)
  }

  function DaysInMonth(y: nat, m: nat): (n: nat)
    requires 1 <= m <= 12
    ensures 28 <= n <= 31
  {
    if m == 2 then (if IsLeapYear(y) then 29 else 28)
    else if m == 4 || m == 6 || m == 9 || m == 11 then 30
    else 31
  }

  /** `datetime.strptime(s, "%d-%m-%Y")`, None where it raises ValueError
      (no match, input left over, year 0, or a day the month lacks). */
  function ParseDate(s: string): (r: Option<Date>)
    ensures r.Some? ==>
      1 <= r.value.year <= 9999 && 1 <= r.value.month <= 12 &&
      1 <= r.value.day <= DaysInMonth(r.value.year, r.value.month)
  {
    var parts := Split(s, "-");
    if |parts| != 3 then None
    else
      match (ParseDay(parts[0]), ParseMonth(parts[1]), ParseYear(parts[2]))
      case (Some(d), Some(m), Some(y)) =>
        if 1 <= y && d <= DaysInMonth(y, m) then Some(Date(d, m, y)) else None
      case _ => None
  }

  /** `datetime.strptime(s, "%H:%M")`, None where it raises ValueError. */
  function ParseTime(s: string): (r: Option<Clock>)
    ensures r.Some? ==> r.value.hour < 24 && r.value.minute < 60
  {
    var parts := Split(s, ":");
    if |parts| != 2 then None
    else
      match (ParseHour(parts[0]), ParseMinute(parts[1]))
      case (Some(h), Some(m)) => Some(Clock(h, m))
      case _ => None
  }

  /** `validate_time`: True exactly when strptime accepts the text, which
      then is two fields of one or two characters around one colon. */
  predicate ValidateTime(s: string)
    ensures ValidateTime(s) ==> var parts := Split(s, ":");
            |parts| == 2 && 1 <= |parts[0]| <= 2 && 1 <= |parts[1]| <= 2
  {
    ParseTime(s).Some?
  }

  /** `validate_date`: True exactly when strptime accepts the text, which
      then is three fields around two dashes, the last one four digits. */
  predicate ValidDate(s: string)
    ensures ValidDate(s) ==> var parts := Split(s, "-");
            |parts| == 3 && 1 <= |parts[0]| <= 2 && 1 <= |parts[1]| <= 2 && |parts[2]| == 4
  {
    ParseDate(s).Some?
  }

  /** The texts `%H`/`%M` accept for value `v`: two digits, or one digit. */
  predicate IsClockFieldText(t: string, v: nat)
    requires v < 100
  {
    t == Pad2(v) || (v < 10 && t == [DigitChar(v)])
  }

  /** The texts `%d` accepts for day `d`: two digits, one digit, or a space
      and one digit. */
  predicate IsDayText(t: string, d: nat)
    requires 1 <= d <= 31
  {
    t == Pad2(d) || (d < 10 && (t == [DigitChar(d)] || t == [' ', DigitChar(d)]))
  }

  /** The texts `%m` accepts for month `m`: two digits or one digit. */
  predicate IsMonthText(t: string, m: nat)
    requires 1 <= m <= 12
  {
    t == Pad2(m) || (m < 10 && t == [DigitChar(m)])
  }

  lemma Pad2NoSeparator(v: nat, c: char)
    requires v < 100 && !IsDigit(c)
    ensures c !in Pad2(v)
  {
  }

  lemma Pad4Value(y: nat)
    requires y < 10000
    ensures ParseYear(Pad4(y)) == Some(y)
  {
    assert y / 100 == (y / 10) / 10;
    assert y / 1000 == (y / 100) / 10;
  }

  lemma {:induction false} HourFieldAccepts(t: string, v: nat)
    requires v < 24 && IsClockFieldText(t, v)
    ensures ParseHour(t) == Some(v)
  {
    if t == Pad2(v) {
      assert TwoDigitValue(t) == v;
    }
  }

  lemma {:induction false} MinuteFieldAccepts(t: string, v: nat)
    requires v < 60 && IsClockFieldText(t, v)
    ensures ParseMinute(t) == Some(v)
  {
    if t == Pad2(v) {
      assert TwoDigitValue(t) == v;
    }
  }

  /** Every hour 0-23 and minute 0-59, written with one or two digits per
      field, is accepted and read back as that time. */
  lemma TimeAccepted(h: nat, m: nat, ht: string, mt: string)
    requires h < 24 && m < 60
    requires IsClockFieldText(ht, h) && IsClockFieldText(mt, m)
    ensures ParseTime(ht + ":" + mt) == Some(Clock(h, m))
  {
    assert ':' !in ht;
    SplitAtFirst(ht, ':', mt);
    assert ':' !in mt;
    SplitWithoutSeparator(mt, ':');
    assert Split(ht + ":" + mt, ":") == [ht, mt];
    HourFieldAccepts(ht, h);
    MinuteFieldAccepts(mt, m);
  }

  /** Conversely, every accepted text is such a spelling of the time it
      yields: so `validate_time` holds exactly of the texts of hours 0-23
      and minutes 0-59. */
  lemma TimeAcceptsOnlyClockTexts(s: string)
    requires ParseTime(s).Some?
    ensures var c := ParseTime(s).value;
            var parts := Split(s, ":");
            |parts| == 2 && s == parts[0] + ":" + parts[1] &&
            IsClockFieldText(parts[0], c.hour) && IsClockFieldText(parts[1], c.minute)
  {
    var parts := Split(s, ":");
    JoinSplit(s, ":");
    assert Join(parts, ":") == parts[0] + ":" + Join(parts[1..], ":");
  }

  lemma {:induction false} DayFieldAccepts(t: string, d: nat)
    requires 1 <= d <= 31 && IsDayText(t, d)
    ensures ParseDay(t) == Some(d)
  {
    if t == Pad2(d) {
      assert TwoDigitValue(t) == d;
    } else if t == [' ', DigitChar(d)] {
      assert t[1..] == [DigitChar(d)];
    }
  }

  lemma {:induction false} MonthFieldAccepts(t: string, m: nat)
    requires 1 <= m <= 12 && IsMonthText(t, m)
    ensures ParseMonth(t) == Some(m)
  {
    if t == Pad2(m) {
      assert TwoDigitValue(t) == m;
    }
  }

  /** Three separator-free fields joined by a separator split back apart. */
  lemma SplitThreeFields(a: string, b: string, c: string, sep: char)
    requires sep !in a && sep !in b && sep !in c
    ensures Split(a + [sep] + b + [sep] + c, [sep]) == [a, b, c]
  {
    assert a + [sep] + b + [sep] + c == a + [sep] + (b + [sep] + c);
    SplitAtFirst(a, sep, b + [sep] + c);
    SplitAtFirst(b, sep, c);
    SplitWithoutSeparator(c, sep);
  }

  /** Every calendar date of years 1-9999, its day and month written in any
      form `%d` and `%m` accept and its year in four digits, is accepted. */
  lemma DateAccepted(date: Date, dt: string, mt: string)
    requires 1 <= date.year <= 9999 && 1 <= date.month <= 12
    requires 1 <= date.day <= DaysInMonth(date.year, date.month)
    requires IsDayText(dt, date.day) && IsMonthText(mt, date.month)
    ensures ParseDate(dt + "-" + mt + "-" + Pad4(date.year)) == Some(date)
  {
    var yt := Pad4(date.year);
    assert '-' !in dt && '-' !in mt && '-' !in yt;
    SplitThreeFields(dt, mt, yt, '-');
    DayFieldAccepts(dt, date.day);
    MonthFieldAccepts(mt, date.month);
    Pad4Value(date.year);
  }

  /** Conversely, every accepted date text is such a spelling of the date it
      yields: day, month and four-digit year separated by "-". */
  lemma DateAcceptsOnlyDateTexts(s: string)
    requires ParseDate(s).Some?
    ensures var d := ParseDate(s).value;
            var parts := Split(s, "-");
            |parts| == 3 && s == parts[0] + "-" + parts[1] + "-" + parts[2] &&
            IsDayText(parts[0], d.day) && IsMonthText(parts[1], d.month) && parts[2] == Pad4(d.year)
  {
    var parts := Split(s, "-");
    assert |parts| == 3;
    assert s == parts[0] + "-" + parts[1] + "-" + parts[2] by {
      JoinSplit(s, "-");
      assert Join(parts[2..], "-") == parts[2];
      assert Join(parts[1..], "-") == parts[1] + "-" + parts[2];
    }
    if |parts[0]| == 2 && parts[0][0] == ' ' {
      assert parts[0] == [' ', parts[0][1]];
    }
  }

  /** 31 February never exists. */
  lemma NoThirtyFirstFebruary(y: nat)
    requires 1 <= y <= 9999
    ensures !ValidDate("31-02-" + Pad4(y))
  {
    var yt := Pad4(y);
    Pad4Value(y);
    SplitThreeFields("31", "02", yt, '-');
    assert "31-02-" + yt == "31" + ['-'] + "02" + ['-'] + yt;
    assert ParseDay("31") == Some(31);
    assert ParseMonth("02") == Some(2);
  }

  /** 29 February exists only in leap years. */
  lemma LeapDayOnlyInLeapYears(y: nat)
    requires 1 <= y <= 9999
    ensures ValidDate("29-02-" + Pad4(y)) <==> IsLeapYear(y)
  {
    var yt := Pad4(y);
    Pad4Value(y);
    SplitThreeFields("29", "02", yt, '-');
    assert "29-02-" + yt == "29" + ['-'] + "02" + ['-'] + yt;
    assert ParseDay("29") == Some(29);
    assert ParseMonth("02") == Some(2);
  }

  /** 31 February never exists and 29 February only in leap years. */
  lemma CalendarChecked(y: nat)
    requires 1 <= y <= 9999
    ensures !ValidDate("31-02-" + Pad4(y))
    ensures ValidDate("29-02-" + Pad4(y)) <==> IsLeapYear(y)
  {
    NoThirtyFirstFebruary(y);
    LeapDayOnlyInLeapYears(y);
  }

  // ---------------------------------------------------------------------
  // Menu actions on the list of tasks
  // ---------------------------------------------------------------------

  datatype AddError = InvalidDate | InvalidTime

  /** The due date as stored: "/" replaced by "-". */
  function NormaliseDueDate(dueDate: string): (r: string)
    ensures '/' !in r && |r| == |dueDate|
  {
    ReplaceChar(dueDate, '/', '-')
  }

  /** The record `add_task` builds when the list holds `count` tasks, or why
      it gives up: a non-empty due date that is no date is checked first,
      then the two times. The priority is only re-cased, never checked. */
  function NewTask(count: nat, description: string, priority: string,
                   dueDate: string, startTime: string, endTime: string): (r: Result<Task, AddError>)
    ensures r == Err(InvalidDate) <==> dueDate != "" && !ValidDate(NormaliseDueDate(dueDate))
    ensures r == Err(InvalidTime) <==>
      (dueDate == "" || ValidDate(NormaliseDueDate(dueDate))) &&
      !(ValidateTime(startTime) && ValidateTime(endTime))
    ensures r.Ok? ==>
      && r.value.id == NatToString(count + 1)
      && r.value.status == Pending
      && r.value.priority == Capitalize(priority)
      && r.value.dueDate == NormaliseDueDate(dueDate)
      && r.value.description == description
      && r.value.startTime == startTime && r.value.endTime == endTime
  {
    var due := if dueDate == "" then dueDate else NormaliseDueDate(dueDate);
    if dueDate != "" && !ValidDate(due) then Err(InvalidDate)
    else if !ValidateTime(startTime) || !ValidateTime(endTime) then Err(InvalidTime)
    else Ok(Task(NatToString(count + 1), description, Capitalize(priority), due, startTime, endTime, Pending))
  }

  /** Any priority text is accepted: whether a task is added never depends
      on it. */
  lemma PriorityNotValidated(count: nat, description: string, p1: string, p2: string,
                             dueDate: string, startTime: string, endTime: string)
    ensures NewTask(count, description, p1, dueDate, startTime, endTime).Ok?
        == NewTask(count, description, p2, dueDate, startTime, endTime).Ok?
  {
  }

  /** Writing the date with "/" or with "-" makes no difference. */
  lemma SlashDateSameAsDash(count: nat, description: string, priority: string,
                            d: string, m: string, y: string, startTime: string, endTime: string)
    requires '/' !in d + m + y
    ensures NewTask(count, description, priority, d + "/" + m + "/" + y, startTime, endTime)
         == NewTask(count, description, priority, d + "-" + m + "-" + y, startTime, endTime)
  {
    var slashed := d + "/" + m + "/" + y;
    var dashed := d + "-" + m + "-" + y;
    assert forall i :: 0 <= i < |d| ==> d[i] == (d + m + y)[i];
    assert forall i :: 0 <= i < |m| ==> m[i] == (d + m + y)[|d| + i];
    assert forall i :: 0 <= i < |y| ==> y[i] == (d + m + y)[|d| + |m| + i];
    assert NormaliseDueDate(slashed) == NormaliseDueDate(dashed);
  }

  /** The linear scan shared by marking and deleting: the index of the
      first task carrying `id`, if any. */
  function FirstMatch(tasks: seq<Task>, id: string): (r: Option<nat>)
    ensures r.Some? ==> r.value < |tasks| && tasks[r.value].id == id
    ensures r.Some? ==> forall j :: 0 <= j < r.value ==> tasks[j].id != id
    ensures r.None? ==> forall j :: 0 <= j < |tasks| ==> tasks[j].id != id
  {
    if tasks == [] then None
    else if tasks[0].id == id then Some(0)
    else match FirstMatch(tasks[1..], id)
      case None => None
      case Some(k) => Some(k + 1)
  }

  /** The list after `mark_task_completed(id)`. */
  function MarkCompleted(tasks: seq<Task>, id: string): (r: seq<Task>)
    ensures |r| == |tasks|
    ensures FirstMatch(tasks, id).None? ==> r == tasks
    ensures FirstMatch(tasks, id).Some? ==>
      var i := FirstMatch(tasks, id).value;
      r[i] == tasks[i].(status := Completed) &&
      forall j :: 0 <= j < |tasks| && j != i ==> r[j] == tasks[j]
  {
    match FirstMatch(tasks, id)
    case None => tasks
    case Some(i) => tasks[i := tasks[i].(status := Completed)]
  }

  datatype MarkOutcome = MarkedCompleted | AlreadyCompleted | TaskNotFound

  /** What `mark_task_completed` reports. */
  function MarkReport(tasks: seq<Task>, id: string): (r: MarkOutcome)
    ensures r == TaskNotFound <==> FirstMatch(tasks, id).None?
    ensures r == AlreadyCompleted ==> MarkCompleted(tasks, id) == tasks
  {
    match FirstMatch(tasks, id)
    case None => TaskNotFound
    case Some(i) =>
      if tasks[i].status == Completed then
        assert tasks[i].(status := Completed) == tasks[i];
        AlreadyCompleted
      else MarkedCompleted
  }

  /** The list after `delete_task(id)`. */
  function RemoveTask(tasks: seq<Task>, id: string): (r: seq<Task>)
    ensures FirstMatch(tasks, id).None? ==> r == tasks
    ensures FirstMatch(tasks, id).Some? ==>
      var i := FirstMatch(tasks, id).value;
      |r| == |tasks| - 1 &&
      (forall j :: 0 <= j < i ==> r[j] == tasks[j]) &&
      (forall j :: i <= j < |r| ==> r[j] == tasks[j + 1])
  {
    match FirstMatch(tasks, id)
    case None => tasks
    case Some(i) => tasks[..i] + tasks[i + 1..]
  }

  function Ids(tasks: seq<Task>): seq<string> {
    seq(|tasks|, j requires 0 <= j < |tasks| => tasks[j].id)
  }

  /** The scan only looks at IDs. */
  lemma {:induction false} FirstMatchOnlyReadsIds(a: seq<Task>, b: seq<Task>, id: string)
    requires Ids(a) == Ids(b)
    ensures FirstMatch(a, id) == FirstMatch(b, id)
    decreases |a|
  {
    assert |a| == |Ids(a)| == |b|;
    if a != [] {
      assert a[0].id == Ids(a)[0] == b[0].id;
      assert Ids(a[1..]) == Ids(a)[1..];
      assert Ids(b[1..]) == Ids(b)[1..];
      FirstMatchOnlyReadsIds(a[1..], b[1..], id);
    }
  }

  /** Marking twice is marking once, and the second time reports that the
      task is already completed. */
  lemma MarkCompletedIdempotent(tasks: seq<Task>, id: string)
    requires FirstMatch(tasks, id).Some?
    ensures MarkCompleted(MarkCompleted(tasks, id), id) == MarkCompleted(tasks, id)
    ensures MarkReport(MarkCompleted(tasks, id), id) == AlreadyCompleted
  {
    var once := MarkCompleted(tasks, id);
    assert Ids(once) == Ids(tasks);
    FirstMatchOnlyReadsIds(once, tasks, id);
  }

  /** Deleting removes exactly one task, the first match, and no other. */
  lemma RemoveTaskRemovesOne(tasks: seq<Task>, id: string)
    requires FirstMatch(tasks, id).Some?
    ensures var i := FirstMatch(tasks, id).value;
            multiset(RemoveTask(tasks, id)) + multiset{tasks[i]} == multiset(tasks)
  {
    var i := FirstMatch(tasks, id).value;
    assert RemoveTask(tasks, id) == tasks[..i] + tasks[i + 1..];
    RemoveAtCounts(tasks, i);
  }

  /** Cutting one element out of a sequence takes exactly that element out
      of its multiset. */
  lemma RemoveAtCounts<T>(s: seq<T>, i: nat)
    requires i < |s|
    ensures multiset(s[..i] + s[i + 1..]) + multiset{s[i]} == multiset(s)
  {
    assert s == s[..i] + [s[i]] + s[i + 1..];
  }

  /** Tasks numbered "1", "2", ... in list order, as a fresh list built only
      by adding is. */
  predicate NumberedInOrder(tasks: seq<Task>) {
    forall j :: 0 <= j < |tasks| ==> tasks[j].id == NatToString(j + 1)
  }

  /** IDs are not unique: in a list numbered in order, deleting any task but
      the last and then adding one gives the new task the ID of whichever task
      that was last, and the scan for that ID stops at the older task, so
      the new one can be neither marked nor deleted by its ID. */
  lemma DeleteThenAddRepeatsId(tasks: seq<Task>, i: nat, description: string, priority: string,
                               dueDate: string, startTime: string, endTime: string)
    requires NumberedInOrder(tasks) && i < |tasks| - 1
    requires NewTask(|tasks| - 1, description, priority, dueDate, startTime, endTime).Ok?
    ensures var kept := RemoveTask(tasks, tasks[i].id);
            var added := NewTask(|kept|, description, priority, dueDate, startTime, endTime).value;
            var after := kept + [added];
            && |after| == |tasks|
            && after[|after| - 2].id == after[|after| - 1].id == tasks[|tasks| - 1].id
            && FirstMatch(after, added.id).value < |after| - 1
            && MarkCompleted(after, added.id)[|after| - 1] == added
            && RemoveTask(after, added.id)[|after| - 2] == added
  {
    var id := tasks[i].id;
    var kept := RemoveTask(tasks, id);
    assert |kept| == |tasks| - 1 && kept[|kept| - 1] == tasks[|tasks| - 1] by {
      assert FirstMatch(tasks, id) == Some(i);
    }
    var added := NewTask(|kept|, description, priority, dueDate, startTime, endTime).value;
    ShadowedByEarlierTwin(kept, added);
  }

  /** A task appended after one with the same ID is shadowed by it: the
      scan stops before it, so marking leaves it alone and deleting removes
      something before it. */
  lemma ShadowedByEarlierTwin(kept: seq<Task>, added: Task)
    requires |kept| >= 1 && kept[|kept| - 1].id == added.id
    ensures var after := kept + [added];
            && FirstMatch(after, added.id).Some?
            && FirstMatch(after, added.id).value < |after| - 1
            && MarkCompleted(after, added.id)[|after| - 1] == added
            && RemoveTask(after, added.id)[|after| - 2] == added
  {
    var after := kept + [added];
    assert after[|kept| - 1].id == added.id;
    var k := FirstMatch(after, added.id);
    assert k.Some? && k.value <= |kept| - 1;
    assert after[|after| - 1] == added;
  }

  // ---------------------------------------------------------------------
  // The list of tasks, edited in place
  // ---------------------------------------------------------------------

  class TodoList {
    var tasks: seq<Task>

    constructor (loaded: seq<Task>)
      ensures tasks == loaded
    {
      tasks := loaded;
    }

    /** `add_task`: appends the new task, or leaves the list alone. */
    method AddTask(description: string, priority: string, dueDate: string,
                   startTime: string, endTime: string) returns (err: Option<AddError>)
      modifies this
      ensures var r := NewTask(|old(tasks)|, description, priority, dueDate, startTime, endTime);
              && (r.Ok? ==> err.None? && tasks == old(tasks) + [r.value])
              && (r.Err? ==> err == Some(r.error) && tasks == old(tasks))
    {
      var taskId := NatToString(|tasks| + 1);
      var due := dueDate;
      if due != "" {
        due := NormaliseDueDate(due);
        if !ValidDate(due) {
          return Some(InvalidDate);
        }
      }
      if !ValidateTime(startTime) || !ValidateTime(endTime) {
        return Some(InvalidTime);
      }
      var task := Task(taskId, description, Capitalize(priority), due, startTime, endTime, Pending);
      tasks := tasks + [task];
      err := None;
    }

    /** `mark_task_completed`: scans for the first task with this ID and
      completes it unless it already is. */
    method MarkTaskCompleted(id: string) returns (outcome: MarkOutcome)
      modifies this
      ensures tasks == MarkCompleted(old(tasks), id)
      ensures outcome == MarkReport(old(tasks), id)
    {
      var i := 0;
      while i < |tasks|
        invariant 0 <= i <= |tasks|
        invariant tasks == old(tasks)
        invariant forall j :: 0 <= j < i ==> tasks[j].id != id
      {
        if tasks[i].id == id {
          if tasks[i].status == Completed {
            return AlreadyCompleted;
          }
          tasks := tasks[i := tasks[i].(status := Completed)];
          return MarkedCompleted;
        }
        i := i + 1;
      }
      return TaskNotFound;
    }

    /** `delete_task`: scans for the first task with this ID and removes it. */
    method DeleteTask(id: string) returns (found: bool)
      modifies this
      ensures tasks == RemoveTask(old(tasks), id)
      ensures found <==> FirstMatch(old(tasks), id).Some?
    {
      var i := 0;
      while i < |tasks|
        invariant 0 <= i <= |tasks|
        invariant tasks == old(tasks)
        invariant forall j :: 0 <= j < i ==> tasks[j].id != id
      {
        if tasks[i].id == id {
          tasks := tasks[..i] + tasks[i + 1..];
          return true;
        }
        i := i + 1;
      }
      return false;
    }
  }
}
