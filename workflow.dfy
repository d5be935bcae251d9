/**
 * `WorkflowCoordinator` (workflow_coordinator.py), its text handling: the CSV text the AI
 * returns is cleaned and parsed into task dictionaries, and weekly meeting lines are added
 * to it. The workflow's steps themselves are in `Coordinator`.
 */
module Workflow {
  import opened Results
  import opened Text
  import opened Calendar
  import opened DateRange
  import opened Scheduler

  // ---------------------------------------------------------------- sequence helpers

  lemma SliceSnoc<T>(s: seq<T>, a: nat, b: nat)
    requires a <= b < |s|
    ensures s[a..b + 1] == s[a..b] + [s[b]] && s[a..b + 1][..b - a] == s[a..b]
  {
  }

  lemma PrefixSnoc<T>(s: seq<T>, k: nat)
    requires k < |s|
    ensures s[..k + 1] == s[..k] + [s[k]] && s[..k + 1][..k] == s[..k]
  {
  }

  lemma Whole<T>(s: seq<T>)
    ensures s[..|s|] == s
  {
  }

  lemma Snoc<T>(s: seq<T>, x: T)
    ensures (s + [x])[..|s|] == s
  {
  }

  lemma SliceAll<T>(s: seq<T>, a: nat)
    requires a <= |s|
    ensures s[a..|s|] == s[a..]
  {
  }

  lemma AppendAssoc<T>(a: seq<T>, b: seq<T>, c: seq<T>)
    ensures a + b + c == a + (b + c)
  {
  }

  lemma AppendEmpty<T>(a: seq<T>)
    ensures a + [] == a
  {
  }

  lemma LastSplit<T>(s: seq<T>)
    requires s != []
    ensures s == s[..|s| - 1] + [s[|s| - 1]]
  {
  }

  // ---------------------------------------------------------------- parsing the CSV text

  /** `s[1:-1]`: all but the first and the last character; empty when there are fewer than two. */
  function Inner(s: string): string {
    if |s| >= 2 then s[1..|s| - 1] else ""
  }

  /** One layer of `q` quotes taken off, when the text both starts and ends with `q`. */
  function Unwrap(s: string, q: char): string {
    if StartsWith(s, [q]) && EndsWith(s, [q]) then Inner(s) else s
  }

  /** The description field: stripped, one `"…"` layer off, one `'…'` layer off, stripped again. */
  function CleanDescription(field: string): string {
    Strip(Unwrap(Unwrap(Strip(field), '"'), '\''))
  }

  /** `[part.strip() for part in line.split(',')]`. */
  function Fields(line: string): (parts: seq<string>)
    ensures |parts| == |Split(line, ',')|
  {
    var raw := Split(line, ',');
    seq(|raw|, k requires 0 <= k < |raw| => Strip(raw[k]))
  }

  /** The task dictionary of one line; `None` for a line of fewer than six fields. */
  function ParseLine(line: string): Option<Task> {
    var parts := Fields(line);
    if |parts| < 6 then None
    else
      var billable := if |parts| > 6 then Lower(parts[6]) == "true" else true;
      Some(Task(parts[0], parts[1], parts[2], CleanDescription(parts[3]), parts[4], parts[5], billable, false, None))
  }

  /** A line both the parser and the cleaner look at: not blank and not a `#` comment. */
  predicate IsDataLine(line: string) {
    Strip(line) != "" && !StartsWith(line, "#")
  }

  /** `text.strip().split('\n')`, which always has a first line. */
  function Lines(text: string): (r: seq<string>)
    ensures |r| >= 1
  {
    Split(Strip(text), '\n')
  }

  /** The data lines among `lines`, in order. */
  function DataLines(lines: seq<string>): (r: seq<string>)
    ensures forall l :: l in r ==> IsDataLine(l)
  {
    if lines == [] then []
    else
      var last := lines[|lines| - 1];
      DataLines(lines[..|lines| - 1]) + (if IsDataLine(last) then [last] else [])
  }

  /** The task dictionaries of the lines that have six fields or more, in order. */
  function ParseAll(lines: seq<string>): seq<Task> {
    if lines == [] then []
    else
      var t := ParseLine(lines[|lines| - 1]);
      ParseAll(lines[..|lines| - 1]) + (if t.Some? then [t.value] else [])
  }

  /** `_parse_generated_tasks`: the first line is dropped; each later data line of six or more fields is a task. */
  function ParsedTasks(text: string): seq<Task> {
    ParseAll(DataLines(Lines(text)[1..]))
  }

  lemma DataLinesSnoc(lines: seq<string>, line: string)
    ensures DataLines(lines + [line]) == DataLines(lines) + (if IsDataLine(line) then [line] else [])
  {
    Snoc(lines, line);
  }

  lemma ParseAllSnoc(lines: seq<string>, line: string)
    ensures ParseAll(lines + [line]) == ParseAll(lines) + (if ParseLine(line).Some? then [ParseLine(line).value] else [])
  {
    Snoc(lines, line);
  }

  /** `_parse_generated_tasks` as Python runs it: the data lines collected, then each one parsed in turn. */
  method ParseGeneratedTasks(text: string) returns (tasks: seq<Task>)
    ensures tasks == ParsedTasks(text)
  {
    var lines := Lines(text);
    var dataLines: seq<string> := [];
    for i := 1 to |lines|
      invariant dataLines == DataLines(lines[1..i])
    {
      SliceSnoc(lines, 1, i);
      DataLinesSnoc(lines[1..i], lines[i]);
      if IsDataLine(lines[i]) {
        dataLines := dataLines + [lines[i]];
      }
    }
    assert lines[1..|lines|] == lines[1..];
    tasks := [];
    for i := 0 to |dataLines|
      invariant tasks == ParseAll(dataLines[..i])
    {
      PrefixSnoc(dataLines, i);
      ParseAllSnoc(dataLines[..i], dataLines[i]);
      var t := ParseLine(dataLines[i]);
      if t.Some? {
        tasks := tasks + [t.value];
      }
    }
    Whole(dataLines);
  }

  /** The line the prompt asks the AI for: the seven fields joined by commas, `billable` as `true`/`false`. */
  function FormatLine(t: Task): string {
    Join(LineFields(t), ',')
  }

  function LineFields(t: Task): seq<string> {
    [t.date, t.start, t.end, t.description, t.projectName, t.taskName, if t.billable then "true" else "false"]
  }

  /** A field that reads back as itself: no comma, no line break, no whitespace at either end. */
  predicate PlainField(f: string) {
    ',' !in f && '\n' !in f && Trimmed(f)
  }

  /** How the `billable` field reads. */
  lemma BillableTexts()
    ensures Strip("true") == "true" && Strip("false") == "false"
    ensures Lower("true") == "true" && Lower("false") != "true"
  {
    StripFixed("true");
    StripFixed("false");
  }

  /** Plain fields joined by commas split back into themselves. */
  lemma FieldsOfJoin(parts: seq<string>)
    requires |parts| >= 1 && forall k :: 0 <= k < |parts| ==> PlainField(parts[k])
    ensures Fields(Join(parts, ',')) == parts
  {
    var line := Join(parts, ',');
    SplitJoin(parts, ',');
    var raw := Split(line, ',');
    var f := Fields(line);
    forall k | 0 <= k < |parts| ensures f[k] == parts[k] {
      StripFixed(parts[k]);
      assert f[k] == Strip(raw[k]);
    }
  }

  /** A task whose line reads back as the same task. */
  predicate Writable(t: Task) {
    && PlainField(t.date) && PlainField(t.start) && PlainField(t.end)
    && PlainField(t.description) && PlainField(t.projectName) && PlainField(t.taskName)
    && !StartsWith(t.date, "#")
    && (t.description == "" || (t.description[0] != '"' && t.description[0] != '\''))
    && !t.isMeeting && t.duration.None?
  }

  /** A plain description not starting with a quote is left as it is. */
  lemma CleanPlainDescription(d: string)
    requires Trimmed(d) && (d == "" || (d[0] != '"' && d[0] != '\''))
    ensures CleanDescription(d) == d
  {
    StripFixed(d);
    assert !StartsWith(d, ['"']) && !StartsWith(d, ['\'']);
  }

  /** A task written as a CSV line parses back into the same task. */
  lemma FormatLineReadsBack(t: Task)
    requires Writable(t)
    ensures ParseLine(FormatLine(t)) == Some(t)
  {
    LineFieldsPlain(t);
    FieldsOfJoin(LineFields(t));
    CleanPlainDescription(t.description);
    ParseLineFields(FormatLine(t), t);
  }

  /** The fields of a writable task are plain. */
  lemma LineFieldsPlain(t: Task)
    requires Writable(t)
    ensures forall k :: 0 <= k < |LineFields(t)| ==> PlainField(LineFields(t)[k])
  {
    var parts := LineFields(t);
    assert PlainField(parts[6]);
  }

  /** A line whose fields are those of `t` parses as `t`, if `t` is a plain task whose description needs no cleaning. */
  lemma ParseLineFields(line: string, t: Task)
    requires Fields(line) == LineFields(t) && CleanDescription(t.description) == t.description
    requires !t.isMeeting && t.duration.None?
    ensures ParseLine(line) == Some(t)
  {
    BillableTexts();
  }

  /** A task written as a CSV line is one line, and a data line. */
  lemma FormatLineIsData(t: Task)
    requires Writable(t)
    ensures IsDataLine(FormatLine(t)) && '\n' !in FormatLine(t)
  {
    var parts, line := LineFields(t), FormatLine(t);
    LineFieldsPlain(t);
    JoinFree(parts, ',', '\n');
    LineHasComma(t);
    if Strip(line) == "" {
      StripEmpty(line);
      assert false;
    }
    if t.date != "" {
      JoinFirst(parts, ',');
      assert t.date[..1] != "#";
    }
  }

  /** The fields of a CSV line are separated by commas. */
  lemma LineHasComma(t: Task)
    ensures ',' in FormatLine(t)
  {
    var parts := LineFields(t);
    assert FormatLine(t) == parts[0] + [','] + Join(parts[1..], ',');
  }

  /** A task written as a CSV line is a data line, and parses back into the same task. */
  lemma ParseFormatLine(t: Task)
    requires Writable(t)
    ensures IsDataLine(FormatLine(t)) && '\n' !in FormatLine(t)
    ensures ParseLine(FormatLine(t)) == Some(t)
  {
    FormatLineReadsBack(t);
    FormatLineIsData(t);
  }

  /** The lines of the tasks, in order. */
  function FormatLines(tasks: seq<Task>): (r: seq<string>)
    ensures |r| == |tasks| && forall k :: 0 <= k < |tasks| ==> r[k] == FormatLine(tasks[k])
  {
    seq(|tasks|, k requires 0 <= k < |tasks| => FormatLine(tasks[k]))
  }

  /** A CSV text in the requested form: a header line, then one line per task. */
  function FormatText(header: string, tasks: seq<Task>): string {
    Join([header] + FormatLines(tasks), '\n')
  }

  /**
   * Parsing inverts writing: a header line (whatever it says) followed by one line per task
   * parses back into exactly those tasks, in order.
   */
  lemma ParseFormatText(header: string, tasks: seq<Task>)
    requires header != "" && '\n' !in header && Trimmed(header)
    requires forall t :: t in tasks ==> Writable(t)
    ensures ParsedTasks(FormatText(header, tasks)) == tasks
  {
    var lines := [header] + FormatLines(tasks);
    var text := FormatText(header, tasks);
    forall t | t in tasks ensures IsDataLine(FormatLine(t)) && '\n' !in FormatLine(t) {
      FormatLineIsData(t);
    }
    assert Trimmed(text) by {
      JoinFirst(lines, '\n');
      var last := lines[|lines| - 1];
      assert last != "" && !IsSpace(last[|last| - 1]) by {
        if tasks != [] {
          var t := tasks[|tasks| - 1];
          JoinLast(LineFields(t), ',');
          assert last == FormatLine(t);
        }
      }
      JoinLast(lines, '\n');
    }
    StripFixed(text);
    SplitJoin(lines, '\n');
    assert Lines(text)[1..] == FormatLines(tasks);
    ParseWrittenLines(tasks);
  }

  /** Every written line is a data line, and the lines parse back into the tasks, in order. */
  lemma {:induction false} ParseWrittenLines(tasks: seq<Task>)
    requires forall t :: t in tasks ==> Writable(t)
    ensures DataLines(FormatLines(tasks)) == FormatLines(tasks)
    ensures ParseAll(FormatLines(tasks)) == tasks
  {
    if tasks != [] {
      var n := |tasks|;
      var front, last, lines := tasks[..n - 1], tasks[n - 1], FormatLines(tasks);
      assert forall t :: t in front ==> t in tasks;
      FormatLinesPrefix(tasks, n - 1);
      ParseWrittenLines(front);
      ParseFormatLine(last);
      LastSplit(lines);
      LastSplit(tasks);
    }
  }

  lemma FormatLinesPrefix(tasks: seq<Task>, k: nat)
    requires k <= |tasks|
    ensures FormatLines(tasks)[..k] == FormatLines(tasks[..k])
  {
  }

  /**
   * A description in one layer of either kind of quote comes out bare, as for the lines
   * `"Implement user authentication"` and `'Fix login bug'`.
   */
  lemma UnquoteDescription(s: string)
    requires Trimmed(s) && (s != "" ==> s[0] != '"' && s[0] != '\'')
    ensures CleanDescription("\"" + s + "\"") == s
    ensures CleanDescription("'" + s + "'") == s
  {
    StripFixed(s);
    UnquoteDouble(s);
    UnquoteSingle(s);
  }

  lemma UnquoteDouble(s: string)
    requires Strip(s) == s && (s != "" ==> s[0] != '\'')
    ensures CleanDescription("\"" + s + "\"") == s
  {
    var d := "\"" + s + "\"";
    assert Trimmed(d);
    StripFixed(d);
    assert Unwrap(d, '"') == s by {
      assert StartsWith(d, ['"']) && EndsWith(d, ['"']);
      assert Inner(d) == s;
    }
    assert Unwrap(s, '\'') == s by {
      assert !StartsWith(s, ['\'']);
    }
  }

  lemma UnquoteSingle(s: string)
    requires Strip(s) == s
    ensures CleanDescription("'" + s + "'") == s
  {
    var q := "'" + s + "'";
    assert Trimmed(q);
    StripFixed(q);
    assert Unwrap(q, '"') == q by {
      assert !StartsWith(q, ['"']);
    }
    assert Unwrap(q, '\'') == s by {
      assert StartsWith(q, ['\'']) && EndsWith(q, ['\'']);
      assert Inner(q) == s;
    }
  }

  // ---------------------------------------------------------------- cleaning the CSV text

  /** A line with every `"` and `'` removed. */
  function Unquoted(line: string): (r: string)
    ensures '"' !in r && '\'' !in r
    ensures forall c :: c != '"' && c != '\'' ==> multiset(r)[c] == multiset(line)[c]
  {
    RemoveChar(RemoveChar(line, '"'), '\'')
  }

  function UnquoteAll(lines: seq<string>): (r: seq<string>)
    ensures |r| == |lines| && forall k :: 0 <= k < |lines| ==> r[k] == Unquoted(lines[k])
  {
    seq(|lines|, k requires 0 <= k < |lines| => Unquoted(lines[k]))
  }

  /** The lines `_clean_generated_tasks` joins: the first line as it was, the data lines unquoted, the meeting lines. */
  function CleanedLines(text: string, meetings: seq<string>): seq<string> {
    var lines := Lines(text);
    [lines[0]] + UnquoteAll(DataLines(lines[1..])) + meetings
  }

  /**
   * `_clean_generated_tasks` with the corrected meeting generator `MeetingLines`; with the
   * generator as written the meeting lines are always empty (`CleanedAsWritten`).
   */
  function CleanGenerated(text: string, missing: seq<int>, prefs: AiPreferences): string
    requires ValidDates(missing)
  {
    Join(CleanedLines(text, MeetingLines(missing, prefs)), '\n')
  }

  /**
   * `_clean_generated_tasks`, with the meeting lines of the corrected generator: the header,
   * each data line unquoted, then the meeting lines.
   */
  method CleanGeneratedTasks(text: string, missing: seq<int>, prefs: AiPreferences) returns (cleaned: string)
    requires ValidDates(missing)
    ensures cleaned == CleanGenerated(text, missing, prefs)
  {
    var lines := Lines(text);
    var out := [lines[0]];
    for i := 1 to |lines|
      invariant out == [lines[0]] + UnquoteAll(DataLines(lines[1..i]))
    {
      SliceSnoc(lines, 1, i);
      DataLinesSnoc(lines[1..i], lines[i]);
      if IsDataLine(lines[i]) {
        UnquoteAllSnoc(DataLines(lines[1..i]), lines[i]);
        AppendAssoc([lines[0]], UnquoteAll(DataLines(lines[1..i])), [Unquoted(lines[i])]);
        out := out + [Unquoted(lines[i])];
      }
    }
    SliceAll(lines, 1);
    var meetings := GenerateScheduledMeetings(missing, prefs);
    if meetings != [] {
      out := out + meetings;
    } else {
      AppendEmpty(out);
    }
    return Join(out, '\n');
  }

  lemma UnquoteAllSnoc(lines: seq<string>, line: string)
    ensures UnquoteAll(lines + [line]) == UnquoteAll(lines) + [Unquoted(line)]
  {
    var l, r := UnquoteAll(lines + [line]), UnquoteAll(lines) + [Unquoted(line)];
    assert |l| == |r|;
    forall k | 0 <= k < |l| ensures l[k] == r[k] {
      if k < |lines| {
        assert (lines + [line])[k] == lines[k];
      }
    }
  }

  /**
   * Cleaning keeps the first line as it was and appends the meeting lines after the data; no
   * data line keeps a quote, and none changes its number of fields, so the parser keeps and
   * drops the same lines as before cleaning.
   */
  lemma CleanedLinesShape(text: string, meetings: seq<string>)
    ensures var ls, data := CleanedLines(text, meetings), DataLines(Lines(text)[1..]);
      && |ls| == 1 + |data| + |meetings|
      && ls[0] == Lines(text)[0]
      && ls[1 + |data|..] == meetings
      && forall k :: 0 <= k < |data| ==>
           '"' !in ls[1 + k] && '\'' !in ls[1 + k] && |Split(ls[1 + k], ',')| == |Split(data[k], ',')|
  {
    var data := DataLines(Lines(text)[1..]);
    var unquoted := UnquoteAll(data);
    var ls := CleanedLines(text, meetings);
    HeadParts(Lines(text)[0], unquoted, meetings);
    forall k | 0 <= k < |data|
      ensures '"' !in ls[1 + k] && '\'' !in ls[1 + k] && |Split(ls[1 + k], ',')| == |Split(data[k], ',')|
    {
      assert ls[1 + k] == Unquoted(data[k]);
      UnquotedFields(data[k]);
    }
  }

  /** Where the parts of `[x] + b + c` sit. */
  lemma HeadParts<T>(x: T, b: seq<T>, c: seq<T>)
    ensures |[x] + b + c| == 1 + |b| + |c| && ([x] + b + c)[0] == x
    ensures forall k :: 0 <= k < |b| ==> ([x] + b + c)[1 + k] == b[k]
    ensures ([x] + b + c)[1 + |b|..] == c
  {
  }

  /** Unquoting removes both quote characters and keeps the commas, so the field count stays. */
  lemma UnquotedFields(line: string)
    ensures '"' !in Unquoted(line) && '\'' !in Unquoted(line)
    ensures |Split(Unquoted(line), ',')| == |Split(line, ',')|
  {
    SplitCount(line, ',');
    SplitCount(Unquoted(line), ',');
  }

  // ---------------------------------------------------------------- sorted distinct dates

  /** `x` put in its place in an ascending list, unless it is there already. */
  function InsertDistinct(s: seq<int>, x: int): (r: seq<int>)
    requires StrictlyAscending(s)
    ensures StrictlyAscending(r)
    ensures forall y :: y in r <==> y in s || y == x
  {
    if s == [] then [x]
    else
      var front, last := s[..|s| - 1], s[|s| - 1];
      assert s == front + [last];
      if x == last then s
      else if x > last then
        AscendingAppend(s, x);
        s + [x]
      else
        var r := InsertDistinct(front, x);
        AscendingAppend(r, last);
        r + [last]
  }

  /** `sorted(set(xs))`: every value of `xs` once, in ascending order. */
  function SortedDistinct(xs: seq<int>): (r: seq<int>)
    ensures StrictlyAscending(r)
    ensures forall y :: y in r <==> y in xs
  {
    if xs == [] then []
    else
      assert xs == xs[..|xs| - 1] + [xs[|xs| - 1]];
      InsertDistinct(SortedDistinct(xs[..|xs| - 1]), xs[|xs| - 1])
  }

  /** An ascending list is determined by its values: `SortedDistinct(xs)` is the only one holding those of `xs`. */
  lemma {:induction false} AscendingUnique(a: seq<int>, b: seq<int>)
    requires StrictlyAscending(a) && StrictlyAscending(b)
    requires forall y :: y in a <==> y in b
    ensures a == b
    decreases |a|
  {
    if a != [] || b != [] {
      assert a != [] && b != [] by {
        if a != [] {
          assert a[0] in a;
        }
        if b != [] {
          assert b[0] in b;
        }
      }
      assert a[0] in b && b[0] in a;
      var i :| 0 <= i < |a| && a[i] == b[0];
      var j :| 0 <= j < |b| && b[j] == a[0];
      assert a[0] == b[0] by {
        if i > 0 && j > 0 {
          assert false;
        }
      }
      forall y ensures y in a[1..] <==> y in b[1..] {
        if y in a[1..] {
          var k :| 0 <= k < |a| - 1 && a[1..][k] == y;
          assert a[k + 1] == y && y in a;
          var m :| 0 <= m < |b| && b[m] == y;
          assert m != 0 && b[1..][m - 1] == y;
        }
        if y in b[1..] {
          var k :| 0 <= k < |b| - 1 && b[1..][k] == y;
          assert b[k + 1] == y && y in b;
          var m :| 0 <= m < |a| && a[m] == y;
          assert m != 0 && a[1..][m - 1] == y;
        }
      }
      AscendingUnique(a[1..], b[1..]);
    }
  }

  // ---------------------------------------------------------------- meeting lines

  /** The preferences the AI step reads; `None` for a key the dictionary does not have. */
  datatype AiPreferences = AiPreferences(meetingDays: Option<seq<string>>, meetingTimes: Option<seq<string>>)

  /** `user_preferences.get('meeting_days', ['Monday', 'Wednesday'])`. */
  function MeetingDays(prefs: AiPreferences): seq<string> {
    if prefs.meetingDays.Some? then prefs.meetingDays.value else ["Monday", "Wednesday"]
  }

  /** `user_preferences.get('meeting_times', ['10:00', '14:00'])`. */
  function MeetingTimes(prefs: AiPreferences): seq<string> {
    if prefs.meetingTimes.Some? then prefs.meetingTimes.value else ["10:00", "14:00"]
  }

  /** The keys of `day_mapping`, each at its weekday number (Monday is 0). */
  const DayNames: seq<string> := ["monday", "tuesday", "wednesday", "thursday", "friday", "saturday", "sunday"]

  function Position(xs: seq<string>, x: string): (i: nat)
    requires x in xs
    ensures i < |xs| && xs[i] == x
  {
    if xs[0] == x then 0 else 1 + Position(xs[1..], x)
  }

  /** `meeting_weekdays`: the weekday numbers of the day names recognised in any letter case, in order. */
  function MeetingWeekdays(days: seq<string>): (r: seq<nat>)
    ensures forall w :: w in r ==> w < 7
  {
    if days == [] then []
    else
      var name := Lower(days[|days| - 1]);
      MeetingWeekdays(days[..|days| - 1]) + (if name in DayNames then [Position(DayNames, name)] else [])
  }

  /** A weekday is a meeting day exactly when some given day name is its name in some letter case. */
  lemma {:induction false} MeetingWeekdaysExactly(days: seq<string>)
    ensures forall w :: w in MeetingWeekdays(days) <==> 0 <= w < 7 && exists d :: d in days && Lower(d) == DayNames[w]
  {
    if days != [] {
      var front, last := days[..|days| - 1], days[|days| - 1];
      LastSplit(days);
      MeetingWeekdaysExactly(front);
      forall w | 0 <= w < 7 && Lower(last) == DayNames[w]
        ensures w in MeetingWeekdays(days)
      {
        DayNamePosition(w);
      }
    }
  }

  /** The day names are distinct, so each one's position is its weekday. */
  lemma DayNamePosition(w: nat)
    requires w < 7
    ensures Position(DayNames, DayNames[w]) == w
  {
  }

  /** `meeting_times[i] if i < len(meeting_times) else meeting_times[0]`; `None` where that raises `IndexError`. */
  function TimeFor(times: seq<string>, i: nat): Option<string> {
    if i < |times| then Some(times[i]) else if times == [] then None else Some(times[0])
  }

  /** `map(int, meeting_time.split(':'))` unpacked into an hour and a minute; `None` where that raises `ValueError`. */
  function SplitTime(time: string): Option<(int, int)> {
    var parts := Split(time, ':');
    if |parts| != 2 then None
    else
      var h, m := ParseInt(parts[0]), ParseInt(parts[1]);
      if h.None? || m.None? then None else Some((h.value, m.value))
  }

  /** `end_time_total_min`: the start hour and minute as minutes, plus the 40 minutes of a meeting. */
  function EndMinutes(hm: (int, int)): int {
    hm.0 * 60 + hm.1 + 40
  }

  /** `f"{end_hour:02d}:{end_min:02d}"` for `total` minutes; the hour is not wrapped at 24. */
  function EndTime(total: int): string {
    PadInt(total / 60, 2) + ":" + PadInt(total % 60, 2)
  }

  /** An end time within the day reads back as itself. */
  lemma EndTimeReadsBack(total: int)
    requires 0 <= total < Day
    ensures ParseHM(EndTime(total)) == Some(total)
  {
    var eh, em := total / 60, total % 60;
    assert eh < 24 && eh * 60 + em == total;
    assert EndTime(total) == PadNat(eh, 2) + ":" + PadNat(em, 2);
    PaddedClock(eh, em);
  }

  /** An hour and a minute printed with two digits each read back as that many minutes. */
  lemma PaddedClock(eh: nat, em: nat)
    requires eh < 24 && em < 60
    ensures ParseHM(PadNat(eh, 2) + ":" + PadNat(em, 2)) == Some(eh * 60 + em)
  {
    Padded(eh, 2);
    Padded(em, 2);
    ParseHMFields(PadNat(eh, 2), PadNat(em, 2), eh, em);
  }

  /** A meeting on day `date` at the time text `time`, ending at the time text `end`. */
  datatype MeetingSlot = MeetingSlot(date: int, time: string, end: string)

  /** The slot, if any, of the `i`-th recognised meeting day in the week starting `week`; `Err` where Python raises. */
  function WeekdaySlot(week: int, i: nat, weekdays: seq<nat>, missing: seq<int>, times: seq<string>)
    : Result<seq<MeetingSlot>, string>
    requires i < |weekdays|
  {
    var date := AddDays(week, weekdays[i]);
    if date.Err? then Err(date.error)
    else if date.value !in missing then Ok([])
    else
      var slot := DaySlot(date.value, TimeFor(times, i));
      if slot.Err? then Err(slot.error) else Ok([slot.value])
  }

  /** The meeting on `date` at `time`, if given; `Err` where Python raises. */
  function DaySlot(date: int, time: Option<string>): Result<MeetingSlot, string> {
    if time.None? then Err("list index out of range")
    else
      var hm := SplitTime(time.value);
      if hm.None? then Err("invalid literal for int() with base 10")
      else Ok(MeetingSlot(date, time.value, EndTime(EndMinutes(hm.value))))
  }

  /** The slot built for a day is the one whose time and end are those of its meeting day. */
  lemma DaySlotAt(s: MeetingSlot, i: nat, times: seq<string>)
    ensures DaySlot(s.date, TimeFor(times, i)) == Ok(s) <==> SlotAt(s, i, times)
  {
  }

  function Indices(n: nat): (r: seq<nat>)
    ensures |r| == n && forall i :: 0 <= i < n ==> r[i] == i
  {
    seq(n, i requires 0 <= i < n => i as nat)
  }

  /** The step of the inner loop, as a function of the position in `meeting_weekdays`. */
  function SlotStep(week: int, weekdays: seq<nat>, missing: seq<int>, times: seq<string>)
    : nat --> Result<seq<MeetingSlot>, string>
  {
    (i: nat) requires i < |weekdays| => WeekdaySlot(week, i, weekdays, missing, times)
  }

  /** The slots of one week, meeting day by meeting day. */
  function WeekSlots(week: int, weekdays: seq<nat>, missing: seq<int>, times: seq<string>)
    : Result<seq<MeetingSlot>, string>
  {
    ConcatEntries(Indices(|weekdays|), SlotStep(week, weekdays, missing, times))
  }

  /** The step of the outer loop, as a function of the week's Monday. */
  function WeekSlotStep(weekdays: seq<nat>, missing: seq<int>, times: seq<string>)
    : int --> Result<seq<MeetingSlot>, string>
  {
    (week: int) => WeekSlots(week, weekdays, missing, times)
  }

  /** The Monday of each missing day, in order: the Monday on or at most six days before it. */
  function Mondays(missing: seq<int>): (r: seq<int>)
    ensures |r| == |missing| && forall k :: 0 <= k < |missing| ==> r[k] == MondayOf(missing[k])
    ensures forall k :: 0 <= k < |missing| ==> Weekday(r[k]) == 0 && r[k] <= missing[k] <= r[k] + 6
  {
    seq(|missing|, k requires 0 <= k < |missing| => MondayOf(missing[k]))
  }

  /** `sorted(weeks_with_missing_days)`: the Monday of every missing day, once each, in order. */
  function Weeks(missing: seq<int>): seq<int> {
    SortedDistinct(Mondays(missing))
  }

  /** The slots of all weeks, in order, or the first error. */
  function Slots(missing: seq<int>, weekdays: seq<nat>, times: seq<string>): Result<seq<MeetingSlot>, string> {
    ConcatEntries(Weeks(missing), WeekSlotStep(weekdays, missing, times))
  }

  /** What a slot on the `i`-th meeting day holds: the time given for that day, and its end 40 minutes on. */
  predicate SlotAt(s: MeetingSlot, i: nat, times: seq<string>) {
    var time := TimeFor(times, i);
    && time.Some? && s.time == time.value
    && SplitTime(time.value).Some?
    && s.end == EndTime(EndMinutes(SplitTime(time.value).value))
  }

  /** `s` is the slot of the `i`-th meeting day of the week starting `week`. */
  predicate SlotOfDay(s: MeetingSlot, week: int, i: nat, weekdays: seq<nat>, missing: seq<int>, times: seq<string>)
    requires i < |weekdays|
  {
    s.date == week + weekdays[i] && ValidOrdinal(s.date) && s.date in missing && SlotAt(s, i, times)
  }

  /** The one step's slot is exactly the slot of its meeting day, when that day is missing. */
  lemma WeekdaySlotExactly(week: int, i: nat, weekdays: seq<nat>, missing: seq<int>, times: seq<string>)
    requires i < |weekdays| && WeekdaySlot(week, i, weekdays, missing, times).Ok?
    ensures forall s :: s in WeekdaySlot(week, i, weekdays, missing, times).value <==>
      SlotOfDay(s, week, i, weekdays, missing, times)
  {
    assert AddDays(week, weekdays[i]).Ok?;
    if AddDays(week, weekdays[i]).value in missing {
      WeekdaySlotPresent(week, i, weekdays, missing, times);
    } else {
      WeekdaySlotAbsent(week, i, weekdays, missing, times);
    }
  }

  /** On a missing day the step holds one slot, the one of that day. */
  lemma WeekdaySlotPresent(week: int, i: nat, weekdays: seq<nat>, missing: seq<int>, times: seq<string>)
    requires i < |weekdays| && WeekdaySlot(week, i, weekdays, missing, times).Ok?
    requires AddDays(week, weekdays[i]).Ok? && AddDays(week, weekdays[i]).value in missing
    ensures forall s :: s in WeekdaySlot(week, i, weekdays, missing, times).value <==>
      SlotOfDay(s, week, i, weekdays, missing, times)
  {
    var date := AddDays(week, weekdays[i]).value;
    var built := DaySlot(date, TimeFor(times, i));
    assert WeekdaySlot(week, i, weekdays, missing, times).value == [built.value];
    forall s ensures s in [built.value] <==> SlotOfDay(s, week, i, weekdays, missing, times) {
      DaySlotAt(s, i, times);
      if s.date == date {
        assert DaySlot(s.date, TimeFor(times, i)) == built;
      }
    }
  }

  /** On a day that is not missing the step holds no slot. */
  lemma WeekdaySlotAbsent(week: int, i: nat, weekdays: seq<nat>, missing: seq<int>, times: seq<string>)
    requires i < |weekdays| && WeekdaySlot(week, i, weekdays, missing, times).Ok?
    requires AddDays(week, weekdays[i]).Ok? && AddDays(week, weekdays[i]).value !in missing
    ensures forall s :: s in WeekdaySlot(week, i, weekdays, missing, times).value <==>
      SlotOfDay(s, week, i, weekdays, missing, times)
  {
    var date := AddDays(week, weekdays[i]).value;
    assert WeekdaySlot(week, i, weekdays, missing, times).value == [];
    forall s ensures !SlotOfDay(s, week, i, weekdays, missing, times) {
      if s.date == date {
        assert s.date !in missing;
      }
    }
  }

  /** A slot of a week's step comes from one of its meeting days. */
  lemma WeekSlotFrom(week: int, weekdays: seq<nat>, missing: seq<int>, times: seq<string>, s: MeetingSlot)
    requires WeekSlots(week, weekdays, missing, times).Ok? && s in WeekSlots(week, weekdays, missing, times).value
    ensures exists i :: 0 <= i < |weekdays| && SlotOfDay(s, week, i, weekdays, missing, times)
  {
    var idx, step := Indices(|weekdays|), SlotStep(week, weekdays, missing, times);
    ConcatEntriesParts(idx, step);
    var x :| x in idx && s in step(x).value;
    assert step(x) == WeekdaySlot(week, x, weekdays, missing, times);
    WeekdaySlotExactly(week, x, weekdays, missing, times);
  }

  /** The slot of each meeting day is among the week's slots. */
  lemma WeekSlotHas(week: int, i: nat, weekdays: seq<nat>, missing: seq<int>, times: seq<string>, s: MeetingSlot)
    requires WeekSlots(week, weekdays, missing, times).Ok? && i < |weekdays|
    requires WeekdaySlot(week, i, weekdays, missing, times).Ok? ==> s in WeekdaySlot(week, i, weekdays, missing, times).value
    ensures s in WeekSlots(week, weekdays, missing, times).value
  {
    var idx, step := Indices(|weekdays|), SlotStep(week, weekdays, missing, times);
    assert i in idx by {
      assert idx[i] == i;
    }
    ConcatEntriesParts(idx, step);
    assert step(i) == WeekdaySlot(week, i, weekdays, missing, times);
  }

  /** Every slot of a week is on a missing day of that week, on the weekday of its meeting day. */
  lemma WeekSlotsIn(week: int, weekdays: seq<nat>, missing: seq<int>, times: seq<string>)
    requires WeekSlots(week, weekdays, missing, times).Ok?
    ensures forall s :: s in WeekSlots(week, weekdays, missing, times).value <==>
      exists i :: 0 <= i < |weekdays| && SlotOfDay(s, week, i, weekdays, missing, times)
  {
    forall s | s in WeekSlots(week, weekdays, missing, times).value
      ensures exists i :: 0 <= i < |weekdays| && SlotOfDay(s, week, i, weekdays, missing, times)
    {
      WeekSlotFrom(week, weekdays, missing, times, s);
    }
    forall s | exists i :: 0 <= i < |weekdays| && SlotOfDay(s, week, i, weekdays, missing, times)
      ensures s in WeekSlots(week, weekdays, missing, times).value
    {
      var i :| 0 <= i < |weekdays| && SlotOfDay(s, week, i, weekdays, missing, times);
      if WeekdaySlot(week, i, weekdays, missing, times).Ok? {
        WeekdaySlotExactly(week, i, weekdays, missing, times);
      }
      WeekSlotHas(week, i, weekdays, missing, times, s);
    }
  }

  /** The missing days are real dates. */
  lemma SlotsInMissing(missing: seq<int>, weekdays: seq<nat>, times: seq<string>)
    requires Slots(missing, weekdays, times).Ok?
    ensures forall s :: s in Slots(missing, weekdays, times).value ==> s.date in missing && ValidOrdinal(s.date)
  {
    var weeks, step := Weeks(missing), WeekSlotStep(weekdays, missing, times);
    ConcatEntriesParts(weeks, step);
    forall week | week in weeks
      ensures step(week).Ok? ==> forall s :: s in step(week).value ==> s.date in missing && ValidOrdinal(s.date)
    {
      var k :| 0 <= k < |missing| && week == Mondays(missing)[k];
      if step(week).Ok? {
        WeekSlotsIn(week, weekdays, missing, times);
      }
    }
  }

  /**
   * The slots are exactly the meetings the preferences ask for on the missing days: a slot for
   * each missing day whose weekday is the `i`-th meeting day, at the `i`-th time (or the first
   * when there are fewer times), ending 40 minutes later.
   */
  lemma SlotsExactly(missing: seq<int>, weekdays: seq<nat>, times: seq<string>)
    requires ValidDates(missing) && forall w :: w in weekdays ==> w < 7
    requires Slots(missing, weekdays, times).Ok?
    ensures forall s :: s in Slots(missing, weekdays, times).value <==>
      s.date in missing && exists i :: 0 <= i < |weekdays| && Weekday(s.date) == weekdays[i] && SlotAt(s, i, times)
  {
    forall s | s in Slots(missing, weekdays, times).value
      ensures s.date in missing && exists i :: 0 <= i < |weekdays| && Weekday(s.date) == weekdays[i] && SlotAt(s, i, times)
    {
      SlotIsMeeting(missing, weekdays, times, s);
    }
    forall s: MeetingSlot | s.date in missing && exists i :: 0 <= i < |weekdays| && Weekday(s.date) == weekdays[i] && SlotAt(s, i, times)
      ensures s in Slots(missing, weekdays, times).value
    {
      var i :| 0 <= i < |weekdays| && Weekday(s.date) == weekdays[i] && SlotAt(s, i, times);
      MeetingIsSlot(missing, weekdays, times, s, i);
    }
  }

  /** A slot is on a missing day, on the weekday of one of the meeting days, at that day's time. */
  lemma SlotIsMeeting(missing: seq<int>, weekdays: seq<nat>, times: seq<string>, s: MeetingSlot)
    requires ValidDates(missing) && forall w :: w in weekdays ==> w < 7
    requires Slots(missing, weekdays, times).Ok? && s in Slots(missing, weekdays, times).value
    ensures s.date in missing && exists i :: 0 <= i < |weekdays| && Weekday(s.date) == weekdays[i] && SlotAt(s, i, times)
  {
    var weeks, step := Weeks(missing), WeekSlotStep(weekdays, missing, times);
    ConcatEntriesFrom(weeks, step, s);
    var week :| week in weeks && step(week).Ok? && s in step(week).value;
    assert step(week) == WeekSlots(week, weekdays, missing, times);
    WeekSlotsIn(week, weekdays, missing, times);
    var i :| 0 <= i < |weekdays| && SlotOfDay(s, week, i, weekdays, missing, times);
    assert week in Mondays(missing);
    var k :| 0 <= k < |missing| && Mondays(missing)[k] == week;
    assert weekdays[i] in weekdays;
    WeekdayFromMonday(missing[k], weekdays[i], s.date);
    assert SlotAt(s, i, times);
  }

  /** A day `w` days after the Monday of the week of `n` falls on weekday `w`. */
  lemma WeekdayFromMonday(n: int, w: int, date: int)
    requires 0 <= w < 7 && date == MondayOf(n) + w
    ensures Weekday(date) == w
  {
    MondayOfWeek(n, w);
  }

  /** A meeting on a missing day, on the weekday of the `i`-th meeting day at its time, is a slot. */
  lemma MeetingIsSlot(missing: seq<int>, weekdays: seq<nat>, times: seq<string>, s: MeetingSlot, i: nat)
    requires ValidDates(missing) && forall w :: w in weekdays ==> w < 7
    requires Slots(missing, weekdays, times).Ok?
    requires s.date in missing && i < |weekdays| && Weekday(s.date) == weekdays[i] && SlotAt(s, i, times)
    ensures s in Slots(missing, weekdays, times).value
  {
    var weeks, step := Weeks(missing), WeekSlotStep(weekdays, missing, times);
    var week := MondayOf(s.date);
    var k :| 0 <= k < |missing| && missing[k] == s.date;
    assert Mondays(missing)[k] == week;
    assert week in weeks;
    ConcatEntriesParts(weeks, step);
    assert step(week) == WeekSlots(week, weekdays, missing, times);
    WeekSlotsIn(week, weekdays, missing, times);
    assert SlotOfDay(s, week, i, weekdays, missing, times);
    ConcatEntriesHas(weeks, step, week, s);
  }


  /** The task a meeting line stands for: a non-billable weekly team meeting. */
  function SlotTask(s: MeetingSlot): Task
    requires ValidOrdinal(s.date)
  {
    Task(FormatDate(s.date), s.time, s.end, "Weekly team meeting", "Team Communication", "Meetings", false, false, None)
  }

  /** `f"{meeting_date},{meeting_time},{end_time},Weekly team meeting,Team Communication,Meetings,false"`. */
  function SlotLine(s: MeetingSlot): string
    requires ValidOrdinal(s.date)
  {
    FormatLine(SlotTask(s))
  }

  /** A printed date is a plain field that does not start a comment. */
  lemma FormatDatePlain(n: int)
    requires ValidOrdinal(n)
    ensures PlainField(FormatDate(n)) && FormatDate(n)[0] != '#'
  {
    FormatDateLayout(n);
    DigitsAndDashesPlain(FormatDate(n));
  }

  /** Digits and dashes, with a digit at each end, make a plain field that does not start with `#`. */
  lemma DigitsAndDashesPlain(s: string)
    requires s != [] && IsDigit(s[0]) && IsDigit(s[|s| - 1])
    requires forall k :: 0 <= k < |s| ==> IsDigit(s[k]) || s[k] == '-'
    ensures PlainField(s) && s[0] != '#'
  {
    assert ',' !in s && '\n' !in s by {
      forall k | 0 <= k < |s| ensures s[k] != ',' && s[k] != '\n' {
        assert IsDigit(s[k]) || s[k] == '-';
      }
    }
  }

  /** A meeting line with plain time texts parses back into its meeting task. */
  lemma SlotLineParses(s: MeetingSlot)
    requires ValidOrdinal(s.date) && PlainField(s.time) && PlainField(s.end)
    ensures IsDataLine(SlotLine(s)) && ParseLine(SlotLine(s)) == Some(SlotTask(s))
  {
    FormatDatePlain(s.date);
    MeetingTaskParses(FormatDate(s.date), s.time, s.end);
  }

  /** The fixed texts of a meeting line are plain fields. */
  lemma MeetingTextsPlain()
    ensures PlainField("Weekly team meeting") && PlainField("Team Communication") && PlainField("Meetings")
  {
    DescriptionPlain();
    ProjectPlain();
    TaskNamePlain();
  }

  lemma DescriptionPlain()
    ensures PlainField("Weekly team meeting")
  {
  }

  lemma ProjectPlain()
    ensures PlainField("Team Communication")
  {
  }

  lemma TaskNamePlain()
    ensures PlainField("Meetings")
  {
  }

  /** The line of a meeting task with plain date and time texts parses back into that task. */
  lemma MeetingTaskParses(date: string, time: string, end: string)
    requires PlainField(date) && date != "" && date[0] != '#' && PlainField(time) && PlainField(end)
    ensures var t := Task(date, time, end, "Weekly team meeting", "Team Communication", "Meetings", false, false, None);
      IsDataLine(FormatLine(t)) && ParseLine(FormatLine(t)) == Some(t)
  {
    var t := Task(date, time, end, "Weekly team meeting", "Team Communication", "Meetings", false, false, None);
    MeetingTextsPlain();
    assert !StartsWith(date, "#");
    assert Writable(t);
    ParseFormatLine(t);
  }

  function SlotLines(slots: seq<MeetingSlot>): (r: seq<string>)
    requires forall s :: s in slots ==> ValidOrdinal(s.date)
    ensures |r| == |slots| && forall k :: 0 <= k < |slots| ==> r[k] == SlotLine(slots[k])
  {
    seq(|slots|, k requires 0 <= k < |slots| => SlotLine(slots[k]))
  }

  /**
   * `_generate_scheduled_meetings` with `timedelta` imported: no lines without missing days or
   * without a recognised meeting day, no lines when Python raises (a date past 9999-12-31, an
   * empty time list, a time that is not `int:int`), and otherwise one line per slot.
   */
  function MeetingLines(missing: seq<int>, prefs: AiPreferences): seq<string>
    requires ValidDates(missing)
  {
    var weekdays, times := MeetingWeekdays(MeetingDays(prefs)), MeetingTimes(prefs);
    if missing == [] || weekdays == [] then []
    else
      var slots := Slots(missing, weekdays, times);
      if slots.Err? then []
      else
        SlotsInMissing(missing, weekdays, times);
        SlotLines(slots.value)
  }

  /** A week's slots, as Python's inner loop collects them. */
  method WeekMeetingSlots(week: int, weekdays: seq<nat>, missing: seq<int>, times: seq<string>)
    returns (r: Result<seq<MeetingSlot>, string>)
    ensures r == WeekSlots(week, weekdays, missing, times)
  {
    var idx, step := Indices(|weekdays|), SlotStep(week, weekdays, missing, times);
    var out: seq<MeetingSlot> := [];
    for i := 0 to |weekdays|
      invariant ConcatEntries(idx[..i], step) == Ok(out)
    {
      var e := WeekdaySlot(week, i, weekdays, missing, times);
      assert ConcatEntries(idx[..i + 1], step) == if e.Err? then e else Ok(out + e.value) by {
        assert idx[i] == i && step(i) == e;
        ConcatEntriesNext(idx, step, i, out);
      }
      var date := AddDays(week, weekdays[i]);
      if date.Err? {
        assert ConcatEntries(idx, step) == Err(date.error) by {
          ConcatEntriesErr(idx, step, i + 1);
        }
        return Err(date.error);
      }
      if date.value in missing {
        var time := TimeFor(times, i);
        if time.None? {
          assert ConcatEntries(idx, step) == Err("list index out of range") by {
            ConcatEntriesErr(idx, step, i + 1);
          }
          return Err("list index out of range");
        }
        var hm := SplitTime(time.value);
        if hm.None? {
          assert ConcatEntries(idx, step) == Err("invalid literal for int() with base 10") by {
            ConcatEntriesErr(idx, step, i + 1);
          }
          return Err("invalid literal for int() with base 10");
        }
        out := out + [MeetingSlot(date.value, time.value, EndTime(EndMinutes(hm.value)))];
      } else {
        assert out + [] == out;
      }
    }
    Whole(idx);
    return Ok(out);
  }

  /** `_generate_scheduled_meetings` (with `timedelta` imported) as Python runs it. */
  method GenerateScheduledMeetings(missing: seq<int>, prefs: AiPreferences) returns (lines: seq<string>)
    requires ValidDates(missing)
    ensures lines == MeetingLines(missing, prefs)
  {
    var times := MeetingTimes(prefs);
    var weekdays := MeetingWeekdaysOf(MeetingDays(prefs));
    if |missing| == 0 || |weekdays| == 0 {
      return [];
    }
    var mondays := MondaysOf(missing);
    var slots := CollectSlots(SortedDistinct(mondays), weekdays, missing, times);
    if slots.Err? {
      return [];
    }
    SlotsInMissing(missing, weekdays, times);
    lines := SlotLines(slots.value);
  }

  /** The loop building `meeting_weekdays`. */
  method MeetingWeekdaysOf(days: seq<string>) returns (weekdays: seq<nat>)
    ensures weekdays == MeetingWeekdays(days)
  {
    weekdays := [];
    for k := 0 to |days|
      invariant weekdays == MeetingWeekdays(days[..k])
    {
      PrefixSnoc(days, k);
      var name := Lower(days[k]);
      if name in DayNames {
        weekdays := weekdays + [Position(DayNames, name)];
      }
    }
    Whole(days);
  }

  /** The loop taking the Monday of each missing day. */
  method MondaysOf(missing: seq<int>) returns (mondays: seq<int>)
    ensures mondays == Mondays(missing)
  {
    mondays := [];
    for k := 0 to |missing|
      invariant |mondays| == k && forall j :: 0 <= j < k ==> mondays[j] == MondayOf(missing[j])
    {
      mondays := mondays + [MondayOf(missing[k])];
    }
  }

  /** The outer loop over the weeks: each week's slots in turn, stopping at the first error. */
  method CollectSlots(weeks: seq<int>, weekdays: seq<nat>, missing: seq<int>, times: seq<string>)
    returns (r: Result<seq<MeetingSlot>, string>)
    ensures r == ConcatEntries(weeks, WeekSlotStep(weekdays, missing, times))
  {
    var step := WeekSlotStep(weekdays, missing, times);
    var slots: seq<MeetingSlot> := [];
    for j := 0 to |weeks|
      invariant ConcatEntries(weeks[..j], step) == Ok(slots)
    {
      var more := WeekMeetingSlots(weeks[j], weekdays, missing, times);
      assert ConcatEntries(weeks[..j + 1], step) == if more.Err? then more else Ok(slots + more.value) by {
        assert step(weeks[j]) == more;
        ConcatEntriesNext(weeks, step, j, slots);
      }
      if more.Err? {
        assert ConcatEntries(weeks, step) == more by {
          ConcatEntriesErr(weeks, step, j + 1);
        }
        return more;
      }
      slots := slots + more.value;
    }
    Whole(weeks);
    return Ok(slots);
  }

  /**
   * `_generate_scheduled_meetings` as written: `timedelta` is used but never imported, so every
   * call that gets past the early return raises `NameError`, which the handler turns into no lines.
   */
  function MeetingLinesAsWritten(missing: seq<int>, prefs: AiPreferences): seq<string> {
    var weekdays := MeetingWeekdays(MeetingDays(prefs));
    if missing == [] || weekdays == [] then []
    else [] // `NameError: name 'timedelta' is not defined`, caught by the handler
  }

  /**
   * With the generator as written, cleaning yields only the header and the unquoted data lines;
   * the corrected generator appends its meeting lines after them.
   */
  lemma CleanedAsWritten(text: string, missing: seq<int>, prefs: AiPreferences)
    requires ValidDates(missing)
    ensures CleanedLines(text, MeetingLinesAsWritten(missing, prefs)) == CleanedLines(text, [])
    ensures CleanedLines(text, MeetingLines(missing, prefs)) == CleanedLines(text, []) + MeetingLines(missing, prefs)
  {
    var lines := Lines(text);
    var kept := [lines[0]] + UnquoteAll(DataLines(lines[1..]));
    assert MeetingLinesAsWritten(missing, prefs) == [];
    assert CleanedLines(text, []) == kept + [];
    AppendEmpty(kept);
  }

  // ---------------------------------------------------------------- the missing import, on one input

  /** The first default meeting time splits into hour 10 and minute 0. */
  lemma TenOClock()
    ensures SplitTime("10:00") == Some((10, 0))
  {
    DigitPairValue("10");
    DigitPairValue("00");
    ClockSplit("10:00", "10", "00");
  }

  /** A time `hh:mm` of two-digit fields splits into the hour and the minute they print. */
  lemma ClockSplit(s: string, hs: string, ms: string)
    requires s == hs + ":" + ms && |hs| == 2 && |ms| == 2 && AllDigits(hs) && AllDigits(ms)
    ensures SplitTime(s) == Some((DigitsValue(hs), DigitsValue(ms)))
  {
    assert s[2] == ':' && s[0] != ':' && s[1] != ':';
    assert IndexOf(s, ':') == 2 by {
      assert s[1..][1..] == s[2..];
    }
    assert s[..2] == hs && s[3..] == ms;
    assert ':' !in ms;
    assert Split(s, ':') == [hs, ms];
    ParseIntDigits(hs);
    ParseIntDigits(ms);
  }

  /** The default meeting days are Monday and Wednesday, weekdays 0 and 2. */
  lemma DefaultWeekdays()
    ensures MeetingWeekdays(["Monday", "Wednesday"]) == [0, 2]
  {
    var days := ["Monday", "Wednesday"];
    assert Lower("Monday") == "monday";
    assert Lower("Wednesday") == "wednesday";
    DayNamePosition(0);
    DayNamePosition(2);
    assert days[..1] == ["Monday"] && days[..1][..0] == [];
  }

  /** A single missing Monday makes one week. */
  lemma OneWeek(d: int)
    requires ValidOrdinal(d) && Weekday(d) == 0
    ensures Weeks([d]) == [d]
  {
    var m := Mondays([d]);
    assert m == [d];
    assert m[..|m| - 1] == [];
    assert SortedDistinct(m) == InsertDistinct([], d);
  }

  /** Two steps that both succeed concatenate their entries. */
  lemma ConcatTwo<X, Y>(xs: seq<X>, f: X --> Result<seq<Y>, string>, a: seq<Y>, b: seq<Y>)
    requires |xs| == 2 && forall x :: x in xs ==> f.requires(x)
    requires f(xs[0]) == Ok(a) && f(xs[1]) == Ok(b)
    ensures ConcatEntries(xs, f) == Ok(a + b)
  {
    assert xs[..0] == [];
    ConcatEntriesNext(xs, f, 0, []);
    assert [] + a == a;
    ConcatEntriesNext(xs, f, 1, a);
    assert xs[..2] == xs;
  }

  /** A missing Monday that is the first meeting day gets its slot at the first time. */
  lemma MeetingDaySlot(d: int, weekdays: seq<nat>, times: seq<string>, hm: (int, int))
    requires ValidOrdinal(d) && |weekdays| >= 1 && weekdays[0] == 0
    requires |times| >= 1 && SplitTime(times[0]) == Some(hm)
    ensures WeekdaySlot(d, 0, weekdays, [d], times) == Ok([MeetingSlot(d, times[0], EndTime(EndMinutes(hm)))])
  {
    assert AddDays(d, weekdays[0]) == Ok(d) && d in [d];
  }

  /** The Wednesday of a week whose only missing day is its Monday gets no slot. */
  lemma OtherDayEmpty(d: int, weekdays: seq<nat>, times: seq<string>)
    requires ValidOrdinal(d + 2) && |weekdays| >= 2 && weekdays[1] == 2
    ensures WeekdaySlot(d, 1, weekdays, [d], times) == Ok([])
  {
    assert AddDays(d, weekdays[1]) == Ok(d + 2) && d + 2 !in [d];
  }

  /** The week of a missing Monday, with Monday and Wednesday meetings, holds the Monday slot only. */
  lemma MondaySlots(d: int, weekdays: seq<nat>, times: seq<string>, hm: (int, int))
    requires ValidOrdinal(d) && ValidOrdinal(d + 2) && |weekdays| == 2 && weekdays[0] == 0 && weekdays[1] == 2
    requires |times| >= 1 && SplitTime(times[0]) == Some(hm)
    ensures WeekSlots(d, weekdays, [d], times) == Ok([MeetingSlot(d, times[0], EndTime(EndMinutes(hm)))])
  {
    var slot := MeetingSlot(d, times[0], EndTime(EndMinutes(hm)));
    MeetingDaySlot(d, weekdays, times, hm);
    OtherDayEmpty(d, weekdays, times);
    FirstDayOnly(d, weekdays, [d], times, [slot]);
  }

  /** A week with two meeting days whose second gets no slot holds the slots of the first. */
  lemma FirstDayOnly(week: int, weekdays: seq<nat>, missing: seq<int>, times: seq<string>, a: seq<MeetingSlot>)
    requires |weekdays| == 2
    requires WeekdaySlot(week, 0, weekdays, missing, times) == Ok(a) && WeekdaySlot(week, 1, weekdays, missing, times) == Ok([])
    ensures WeekSlots(week, weekdays, missing, times) == Ok(a)
  {
    TwoWeekdaySlots(week, weekdays, missing, times, a, []);
    assert a + [] == a;
  }

  /** A week with two meeting days holds the slots of the first, then those of the second. */
  lemma TwoWeekdaySlots(week: int, weekdays: seq<nat>, missing: seq<int>, times: seq<string>, a: seq<MeetingSlot>, b: seq<MeetingSlot>)
    requires |weekdays| == 2
    requires WeekdaySlot(week, 0, weekdays, missing, times) == Ok(a) && WeekdaySlot(week, 1, weekdays, missing, times) == Ok(b)
    ensures WeekSlots(week, weekdays, missing, times) == Ok(a + b)
  {
    var idx, step := Indices(2), SlotStep(week, weekdays, missing, times);
    assert idx[0] == 0 && idx[1] == 1;
    ConcatTwo(idx, step, a, b);
  }

  /** With a single week, the slots are that week's. */
  lemma SingleWeekSlots(missing: seq<int>, weekdays: seq<nat>, times: seq<string>, slots: seq<MeetingSlot>)
    requires |Weeks(missing)| == 1 && WeekSlots(Weeks(missing)[0], weekdays, missing, times) == Ok(slots)
    ensures Slots(missing, weekdays, times) == Ok(slots)
  {
    var weeks, step := Weeks(missing), WeekSlotStep(weekdays, missing, times);
    assert weeks[..0] == [] && weeks[..1] == weeks;
    ConcatEntriesNext(weeks, step, 0, []);
    assert [] + slots == slots;
  }

  /** Once the slots are known, the lines are theirs, one each. */
  lemma LinesOfSlots(missing: seq<int>, prefs: AiPreferences, weekdays: seq<nat>, times: seq<string>, slots: seq<MeetingSlot>)
    requires weekdays == MeetingWeekdays(MeetingDays(prefs)) && times == MeetingTimes(prefs)
    requires ValidDates(missing) && missing != [] && weekdays != [] && Slots(missing, weekdays, times) == Ok(slots)
    ensures forall s :: s in slots ==> ValidOrdinal(s.date)
    ensures MeetingLines(missing, prefs) == SlotLines(slots)
  {
    SlotsInMissing(missing, weekdays, times);
  }

  /** A single missing day with a single slot gives that slot's line only. */
  lemma OneSlotLines(d: int, prefs: AiPreferences, weekdays: seq<nat>, times: seq<string>, slot: MeetingSlot)
    requires ValidOrdinal(d) && weekdays == MeetingWeekdays(MeetingDays(prefs)) && times == MeetingTimes(prefs)
    requires weekdays != [] && Slots([d], weekdays, times) == Ok([slot]) && ValidOrdinal(slot.date)
    ensures MeetingLines([d], prefs) == [SlotLine(slot)]
  {
    LinesOfSlots([d], prefs, weekdays, times, [slot]);
    OneSlotLine(slot);
  }

  /** A single slot makes a single line. */
  lemma OneSlotLine(s: MeetingSlot)
    requires ValidOrdinal(s.date)
    ensures SlotLines([s]) == [SlotLine(s)]
  {
  }

  /** One missing Monday, meetings on Monday and Wednesday: one slot, on that Monday. */
  lemma OneMondaySlots(d: int, weekdays: seq<nat>, times: seq<string>, hm: (int, int))
    requires ValidOrdinal(d) && ValidOrdinal(d + 2) && Weekday(d) == 0
    requires |weekdays| == 2 && weekdays[0] == 0 && weekdays[1] == 2
    requires |times| >= 1 && SplitTime(times[0]) == Some(hm)
    ensures Slots([d], weekdays, times) == Ok([MeetingSlot(d, times[0], EndTime(EndMinutes(hm)))])
  {
    OneWeek(d);
    MondaySlots(d, weekdays, times, hm);
    SingleWeekSlots([d], weekdays, times, [MeetingSlot(d, times[0], EndTime(EndMinutes(hm)))]);
  }

  /**
   * The missing import on the default preferences: for one missing Monday the code as written
   * produces no meeting line, where the intended code produces the Monday 10:00-10:40 meeting.
   */
  lemma TimedeltaFinding(d: int)
    requires ValidOrdinal(d) && ValidOrdinal(d + 2) && Weekday(d) == 0
    ensures MeetingLinesAsWritten([d], AiPreferences(None, None)) == []
    ensures MeetingLines([d], AiPreferences(None, None)) == [SlotLine(MeetingSlot(d, "10:00", EndTime(EndMinutes((10, 0)))))]
  {
    DefaultWeekdays();
    TenOClock();
    var prefs := AiPreferences(None, None);
    var weekdays, times := MeetingWeekdays(MeetingDays(prefs)), MeetingTimes(prefs);
    OneMondaySlots(d, weekdays, times, (10, 0));
    OneSlotLines(d, prefs, weekdays, times, MeetingSlot(d, "10:00", EndTime(EndMinutes((10, 0)))));
  }

  /** The same on 2024-06-17, a Monday. */
  lemma TimedeltaFindingExample()
    ensures MeetingLinesAsWritten([739054], AiPreferences(None, None)) == []
    ensures MeetingLines([739054], AiPreferences(None, None)) != []
  {
    TimedeltaFinding(739054);
  }
}
