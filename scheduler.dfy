/**
 * `TaskScheduler` (task_scheduler.py): weekly meetings placed on the business days of a
 * range, tasks packed into the working days around them (or kept at their own times and
 * pulled into business hours), and the whole schedule sorted by date and start time.
 *
 * Task records are the dictionaries the scheduler passes around; a missing or empty
 * `date`/`start` is the empty string. Durations are whole minutes (the source holds
 * them as float hours). Clock times are minutes from 1900-01-01 00:00 (see `Calendar`).
 */
module Scheduler {
  import opened Results
  import opened Text
  import opened Calendar
  import opened Sorting
  import opened DateRange

  /** A task dictionary: `date`, `start`, `end`, `description`, `project_name`, `task_name`, `billable`, `is_meeting`, `duration`. */
  datatype Task = Task(
    date: string, start: string, end: string,
    description: string, projectName: string, taskName: string,
    billable: bool, isMeeting: bool, duration: Option<int>)

  /** A weekly meeting preference: `day_of_week` (1 is Monday), `time` (`HH:MM`), `duration` in minutes, `title`. */
  datatype Meeting = Meeting(dayOfWeek: int, time: string, duration: int, title: string)

  /** What the preference prompts accept: a day 1..7 and a duration of a quarter of an hour to eight hours. */
  predicate ValidMeeting(m: Meeting) {
    1 <= m.dayOfWeek <= 7 && 15 <= m.duration <= 480
  }

  /** The message of the `ValueError` `strptime` raises on a time it cannot read. */
  function BadTime(s: string): string {
    "time data '" + s + "' does not match format '%H:%M'"
  }

  /** The message of the `ValueError` `strptime` raises on a date it cannot read. */
  function BadDate(s: string): string {
    "time data '" + s + "' does not match format '%Y-%m-%d'"
  }

  /** `_calculate_duration`: minutes from `start` to `end`, never negative; one hour if either does not parse. */
  function CalculateDuration(start: string, end: string): (r: int)
    ensures 0 <= r < Day
    ensures ParseHM(start).None? || ParseHM(end).None? ==> r == 60
    ensures ParseHM(start).Some? && ParseHM(end).Some? ==>
      r == if ParseHM(end).value >= ParseHM(start).value then ParseHM(end).value - ParseHM(start).value else 0
  {
    var s, e := ParseHM(start), ParseHM(end);
    if s.None? || e.None? then 60
    else if e.value >= s.value then e.value - s.value
    else 0
  }

  // ---------------------------------------------------------------- weekly meetings

  /** The Monday of `d`'s week: the key `_add_weekly_meetings` groups dates by. */
  function MondayOf(d: int): (k: int)
    ensures Weekday(k) == 0 && k <= d < k + 7
  {
    MondayOfWeek(d, 0);
    d - Weekday(d)
  }

  /** The week keys in the order the `weeks` dictionary first sees them. */
  function WeekKeys(dates: seq<int>): seq<int> {
    if dates == [] then []
    else
      var keys := WeekKeys(dates[..|dates| - 1]);
      var k := MondayOf(dates[|dates| - 1]);
      if k in keys then keys else keys + [k]
  }

  /** The list `weeks[k]`: the dates of week `k`, in the order given. */
  function WeekDates(dates: seq<int>, k: int): (r: seq<int>)
    ensures forall d :: d in r ==> d in dates
  {
    if dates == [] then []
    else
      var d := dates[|dates| - 1];
      WeekDates(dates[..|dates| - 1], k) + (if MondayOf(d) == k then [d] else [])
  }

  /** Each week appears once as a key, and the keys are exactly the weeks the dates fall in. */
  lemma {:induction false} WeekKeysExactly(dates: seq<int>)
    ensures forall k :: k in WeekKeys(dates) <==> exists d :: d in dates && MondayOf(d) == k
    ensures forall i, j :: 0 <= i < j < |WeekKeys(dates)| ==> WeekKeys(dates)[i] != WeekKeys(dates)[j]
  {
    if dates != [] {
      var front := dates[..|dates| - 1];
      WeekKeysExactly(front);
      assert dates == front + [dates[|dates| - 1]];
    }
  }

  /** A week's list holds exactly the dates of that week. */
  lemma {:induction false} WeekDatesExactly(dates: seq<int>, k: int)
    ensures forall d :: d in WeekDates(dates, k) <==> d in dates && MondayOf(d) == k
  {
    if dates != [] {
      var front := dates[..|dates| - 1];
      WeekDatesExactly(front, k);
      assert dates == front + [dates[|dates| - 1]];
    }
  }

  /** The first date of a week whose `weekday() + 1` is `dayOfWeek`. */
  function FirstOnDay(week: seq<int>, dayOfWeek: int): (r: Option<int>)
    ensures r.Some? ==> r.value in week && Weekday(r.value) + 1 == dayOfWeek
    ensures r.None? ==> forall d :: d in week ==> Weekday(d) + 1 != dayOfWeek
  {
    if week == [] then None
    else if Weekday(week[0]) + 1 == dayOfWeek then Some(week[0])
    else FirstOnDay(week[1..], dayOfWeek)
  }

  /** The scheduled entry of meeting `m` on day `d`, starting at minute `start` of the day. */
  function MeetingTask(d: int, m: Meeting, start: int): Task
    requires ValidOrdinal(d)
  {
    MeetingOn(FormatDate(d), m, start)
  }

  /** The scheduled entry of meeting `m` on the day printed `date`. */
  function MeetingOn(date: string, m: Meeting, start: int): Task {
    Task(date, m.time, FormatHM(start + m.duration), m.title, "Meetings", "Team Meeting", false, true, None)
  }

  /** The entry (if any) of meeting `m` in the week `week`; `Err` when its time cannot be read. */
  function MeetingEntry(week: seq<int>, m: Meeting): (r: Result<seq<Task>, string>)
    requires forall d :: d in week ==> ValidOrdinal(d)
    ensures r.Ok? ==> |r.value| <= 1
  {
    var target := FirstOnDay(week, m.dayOfWeek);
    if target.None? then Ok([])
    else
      var t := ParseHM(m.time);
      if t.None? then Err(BadTime(m.time)) else Ok([MeetingTask(target.value, m, t.value)])
  }

  /** The entries of a sequence of steps, concatenated in order; the first failing step decides the error. */
  function ConcatEntries<X, Y>(xs: seq<X>, f: X --> Result<seq<Y>, string>): Result<seq<Y>, string>
    requires forall x :: x in xs ==> f.requires(x)
  {
    if xs == [] then Ok([])
    else
      var r := ConcatEntries(xs[..|xs| - 1], f);
      if r.Err? then r
      else
        var e := f(xs[|xs| - 1]);
        if e.Err? then e else Ok(r.value + e.value)
  }

  /** One more step: the concatenation of a longer prefix, from that of the shorter one. */
  lemma ConcatEntriesNext<X, Y>(xs: seq<X>, f: X --> Result<seq<Y>, string>, i: nat, out: seq<Y>)
    requires i < |xs| && forall x :: x in xs ==> f.requires(x)
    requires ConcatEntries(xs[..i], f) == Ok(out)
    ensures ConcatEntries(xs[..i + 1], f) == if f(xs[i]).Err? then f(xs[i]) else Ok(out + f(xs[i]).value)
  {
    assert xs[..i + 1][..i] == xs[..i];
  }

  /** Once a prefix fails, the whole sequence fails with the same error. */
  lemma {:induction false} ConcatEntriesErr<X, Y>(xs: seq<X>, f: X --> Result<seq<Y>, string>, i: nat)
    requires i <= |xs| && forall x :: x in xs ==> f.requires(x)
    requires ConcatEntries(xs[..i], f).Err?
    ensures ConcatEntries(xs, f) == ConcatEntries(xs[..i], f)
    decreases |xs| - i
  {
    if i < |xs| {
      assert xs[..i + 1][..i] == xs[..i];
      ConcatEntriesErr(xs, f, i + 1);
    } else {
      assert xs[..i] == xs;
    }
  }

  /** Where the concatenation succeeds, what it holds, and which step's error it reports. */
  lemma {:induction false} ConcatEntriesParts<X, Y>(xs: seq<X>, f: X --> Result<seq<Y>, string>)
    requires forall x :: x in xs ==> f.requires(x)
    ensures ConcatEntries(xs, f).Ok? <==> forall x :: x in xs ==> f(x).Ok?
    ensures ConcatEntries(xs, f).Err? ==> exists x :: x in xs && f(x) == ConcatEntries(xs, f)
    ensures ConcatEntries(xs, f).Ok? ==>
      forall e :: e in ConcatEntries(xs, f).value <==> exists x :: x in xs && e in f(x).value
  {
    if xs != [] {
      var front, last := xs[..|xs| - 1], xs[|xs| - 1];
      assert xs == front + [last];
      ConcatEntriesParts(front, f);
    }
  }

  /** An entry of the concatenation comes from some step. */
  lemma ConcatEntriesFrom<X, Y>(xs: seq<X>, f: X --> Result<seq<Y>, string>, e: Y)
    requires forall x :: x in xs ==> f.requires(x)
    requires ConcatEntries(xs, f).Ok? && e in ConcatEntries(xs, f).value
    ensures exists x :: x in xs && f(x).Ok? && e in f(x).value
  {
    ConcatEntriesParts(xs, f);
  }

  /** When the concatenation succeeds, so does every step. */
  lemma ConcatEntriesStepOk<X, Y>(xs: seq<X>, f: X --> Result<seq<Y>, string>, x: X)
    requires forall x :: x in xs ==> f.requires(x)
    requires ConcatEntries(xs, f).Ok? && x in xs
    ensures f(x).Ok?
  {
    ConcatEntriesParts(xs, f);
  }

  /** An entry of a step is an entry of the concatenation. */
  lemma ConcatEntriesHas<X, Y>(xs: seq<X>, f: X --> Result<seq<Y>, string>, x: X, e: Y)
    requires forall x :: x in xs ==> f.requires(x)
    requires ConcatEntries(xs, f).Ok? && x in xs && f(x).Ok? && e in f(x).value
    ensures e in ConcatEntries(xs, f).value
  {
    ConcatEntriesParts(xs, f);
  }

  /** Steps of at most `c` entries each give at most `c` entries per step. */
  lemma {:induction false} ConcatEntriesLength<X, Y>(xs: seq<X>, f: X --> Result<seq<Y>, string>, c: nat)
    requires forall x :: x in xs ==> f.requires(x)
    requires forall x :: x in xs && f(x).Ok? ==> |f(x).value| <= c
    ensures ConcatEntries(xs, f).Ok? ==> |ConcatEntries(xs, f).value| <= c * |xs|
  {
    if xs != [] {
      var front := xs[..|xs| - 1];
      assert forall x :: x in front ==> x in xs;
      ConcatEntriesLength(front, f, c);
      assert c * |xs| == c * |front| + c;
    }
  }

  /** One week's step of `_add_weekly_meetings`, as a function of the week key. */
  function WeekStep(dates: seq<int>, meetings: seq<Meeting>): int --> Result<seq<Task>, string> {
    (k: int) requires forall d :: d in WeekDates(dates, k) ==> ValidOrdinal(d) =>
      WeekMeetings(WeekDates(dates, k), meetings)
  }

  /** One meeting's step within a week, as a function of the meeting. */
  function MeetingStep(week: seq<int>): Meeting --> Result<seq<Task>, string> {
    (m: Meeting) requires forall d :: d in week ==> ValidOrdinal(d) => MeetingEntry(week, m)
  }

  /** The entries of all meetings for one week. */
  function WeekMeetings(week: seq<int>, meetings: seq<Meeting>): Result<seq<Task>, string>
    requires forall d :: d in week ==> ValidOrdinal(d)
  {
    ConcatEntries(meetings, MeetingStep(week))
  }

  /** `_add_weekly_meetings`: for every week, in order, and every meeting, in order, the meeting's entry. */
  function WeeklyMeetings(dates: seq<int>, meetings: seq<Meeting>): Result<seq<Task>, string>
    requires forall d :: d in dates ==> ValidOrdinal(d)
  {
    if meetings == [] then Ok([]) else ConcatEntries(WeekKeys(dates), WeekStep(dates, meetings))
  }

  /** The search `_add_weekly_meetings` makes for a meeting's day within a week. */
  method FindDay(week: seq<int>, dayOfWeek: int) returns (target: Option<int>)
    ensures target == FirstOnDay(week, dayOfWeek)
  {
    var i := 0;
    while i < |week|
      invariant 0 <= i <= |week|
      invariant FirstOnDay(week[i..], dayOfWeek) == FirstOnDay(week, dayOfWeek)
    {
      assert week[i..][1..] == week[i + 1..];
      if Weekday(week[i]) + 1 == dayOfWeek {
        return Some(week[i]);
      }
      i := i + 1;
    }
    return None;
  }

  /** The inner loop of `_add_weekly_meetings`: every meeting placed in one week. */
  method PlaceMeetings(week: seq<int>, meetings: seq<Meeting>) returns (r: Result<seq<Task>, string>)
    requires forall d :: d in week ==> ValidOrdinal(d)
    ensures r == WeekMeetings(week, meetings)
  {
    var out: seq<Task> := [];
    for j := 0 to |meetings|
      invariant ConcatEntries(meetings[..j], MeetingStep(week)) == Ok(out)
    {
      var m := meetings[j];
      var e := MeetingEntry(week, m);
      assert ConcatEntries(meetings[..j + 1], MeetingStep(week)) == if e.Err? then e else Ok(out + e.value) by {
        assert MeetingStep(week)(m) == e;
        ConcatEntriesNext(meetings, MeetingStep(week), j, out);
      }
      var target := FindDay(week, m.dayOfWeek);
      if target.Some? {
        var t := ParseHM(m.time);
        if t.None? {
          assert ConcatEntries(meetings, MeetingStep(week)) == Err(BadTime(m.time)) by {
            ConcatEntriesErr(meetings, MeetingStep(week), j + 1);
          }
          return Err(BadTime(m.time));
        }
        out := out + [MeetingTask(target.value, m, t.value)];
      } else {
        assert out + [] == out;
      }
    }
    assert meetings[..|meetings|] == meetings;
    return Ok(out);
  }

  /** `_add_weekly_meetings`: the dates grouped by week, then every meeting placed in every week. */
  method AddWeeklyMeetings(workingDates: seq<int>, meetings: seq<Meeting>) returns (r: Result<seq<Task>, string>)
    requires forall d :: d in workingDates ==> ValidOrdinal(d)
    ensures r == WeeklyMeetings(workingDates, meetings)
  {
    if |meetings| == 0 {
      return Ok([]);
    }
    var keys, weeks := GroupByWeek(workingDates);
    var step := WeekStep(workingDates, meetings);
    var out: seq<Task> := [];
    for j := 0 to |keys|
      invariant ConcatEntries(keys[..j], step) == Ok(out)
    {
      var key := keys[j];
      assert key in weeks;
      var week := weeks[key];
      var e := WeekMeetings(week, meetings);
      assert ConcatEntries(keys[..j + 1], step) == if e.Err? then e else Ok(out + e.value) by {
        assert step(key) == e;
        ConcatEntriesNext(keys, step, j, out);
      }
      var entries := PlaceMeetings(week, meetings);
      if entries.Err? {
        assert ConcatEntries(keys, step) == entries by {
          ConcatEntriesErr(keys, step, j + 1);
        }
        return entries;
      }
      out := out + entries.value;
    }
    assert keys[..|keys|] == keys;
    return Ok(out);
  }

  /** The first loop of `_add_weekly_meetings`: the `weeks` dictionary and the order of its keys. */
  method GroupByWeek(dates: seq<int>) returns (keys: seq<int>, weeks: map<int, seq<int>>)
    ensures keys == WeekKeys(dates)
    ensures forall k :: k in weeks <==> k in keys
    ensures forall k :: k in weeks ==> weeks[k] == WeekDates(dates, k)
  {
    weeks, keys := map[], [];
    for i := 0 to |dates|
      invariant keys == WeekKeys(dates[..i])
      invariant forall k :: k in weeks <==> k in keys
      invariant forall k :: k in weeks ==> weeks[k] == WeekDates(dates[..i], k)
    {
      var d := dates[i];
      var key := MondayOf(d);
      assert dates[..i + 1][..i] == dates[..i];
      if key !in weeks {
        NoDatesOfOtherWeeks(dates[..i], key);
        weeks := weeks[key := []];
        keys := keys + [key];
      }
      weeks := weeks[key := weeks[key] + [d]];
    }
    assert dates[..|dates|] == dates;
  }

  /** A week that is not yet a key has no dates. */
  lemma NoDatesOfOtherWeeks(dates: seq<int>, k: int)
    requires k !in WeekKeys(dates)
    ensures WeekDates(dates, k) == []
  {
    WeekKeysExactly(dates);
    WeekDatesExactly(dates, k);
    if WeekDates(dates, k) != [] {
      assert WeekDates(dates, k)[0] in WeekDates(dates, k);
    }
  }

  /** The entries of one week: each meeting whose day the week has, on the first such date. */
  lemma WeekEntries(week: seq<int>, meetings: seq<Meeting>)
    requires forall d :: d in week ==> ValidOrdinal(d)
    requires WeekMeetings(week, meetings).Ok?
    ensures forall e :: e in WeekMeetings(week, meetings).value <==>
      exists m :: m in meetings && FirstOnDay(week, m.dayOfWeek).Some? && ParseHM(m.time).Some? &&
        e == MeetingTask(FirstOnDay(week, m.dayOfWeek).value, m, ParseHM(m.time).value)
  {
    var r := WeekMeetings(week, meetings);
    forall e | e in r.value
      ensures exists m :: m in meetings && FirstOnDay(week, m.dayOfWeek).Some? && ParseHM(m.time).Some? &&
                          e == MeetingTask(FirstOnDay(week, m.dayOfWeek).value, m, ParseHM(m.time).value)
    {
      WeekEntryFrom(week, meetings, e);
    }
    forall m | m in meetings && FirstOnDay(week, m.dayOfWeek).Some? && ParseHM(m.time).Some?
      ensures MeetingTask(FirstOnDay(week, m.dayOfWeek).value, m, ParseHM(m.time).value) in r.value
    {
      WeekEntryHas(week, meetings, m);
    }
  }

  /** Every entry of a week comes from a meeting held on one of its days, at a time that reads. */
  lemma WeekEntryFrom(week: seq<int>, meetings: seq<Meeting>, e: Task)
    requires forall d :: d in week ==> ValidOrdinal(d)
    requires WeekMeetings(week, meetings).Ok? && e in WeekMeetings(week, meetings).value
    ensures exists m :: m in meetings && FirstOnDay(week, m.dayOfWeek).Some? && ParseHM(m.time).Some? &&
                        e == MeetingTask(FirstOnDay(week, m.dayOfWeek).value, m, ParseHM(m.time).value)
  {
    var step := MeetingStep(week);
    ConcatEntriesFrom(meetings, step, e);
    var m :| m in meetings && step(m).Ok? && e in step(m).value;
    var entry := MeetingEntry(week, m);
    assert step(m) == entry;
    assert FirstOnDay(week, m.dayOfWeek).Some? && ParseHM(m.time).Some?;
    assert entry.value == [MeetingTask(FirstOnDay(week, m.dayOfWeek).value, m, ParseHM(m.time).value)];
  }

  /** Every meeting held on one of a week's days gets its entry in that week. */
  lemma WeekEntryHas(week: seq<int>, meetings: seq<Meeting>, m: Meeting)
    requires forall d :: d in week ==> ValidOrdinal(d)
    requires WeekMeetings(week, meetings).Ok? && m in meetings
    requires FirstOnDay(week, m.dayOfWeek).Some? && ParseHM(m.time).Some?
    ensures MeetingTask(FirstOnDay(week, m.dayOfWeek).value, m, ParseHM(m.time).value) in WeekMeetings(week, meetings).value
  {
    var step, e := MeetingStep(week), MeetingTask(FirstOnDay(week, m.dayOfWeek).value, m, ParseHM(m.time).value);
    assert step(m) == MeetingEntry(week, m) == Ok([e]);
    ConcatEntriesHas(meetings, step, m, e);
  }

  /** Dates of the same week and the same weekday are the same date. */
  lemma SameWeekSameDay(d: int, d': int)
    requires MondayOf(d) == MondayOf(d') && Weekday(d) == Weekday(d')
    ensures d == d'
  {
  }

  /**
   * The meetings `_add_weekly_meetings` schedules: an entry for every business day and every
   * meeting held on that day of the week, and nothing else.
   */
  lemma WeeklyMeetingsEntries(dates: seq<int>, meetings: seq<Meeting>)
    requires forall d :: d in dates ==> ValidOrdinal(d)
    requires WeeklyMeetings(dates, meetings).Ok?
    ensures forall e :: e in WeeklyMeetings(dates, meetings).value <==>
      exists d, m :: d in dates && m in meetings && Weekday(d) + 1 == m.dayOfWeek && ParseHM(m.time).Some? &&
        e == MeetingTask(d, m, ParseHM(m.time).value)
  {
    forall e | e in WeeklyMeetings(dates, meetings).value
      ensures exists d, m :: d in dates && m in meetings && Weekday(d) + 1 == m.dayOfWeek &&
                             ParseHM(m.time).Some? && e == MeetingTask(d, m, ParseHM(m.time).value)
    {
      WeeklyEntryIsMeeting(dates, meetings, e);
    }
    forall d, m | d in dates && m in meetings && Weekday(d) + 1 == m.dayOfWeek && ParseHM(m.time).Some?
      ensures MeetingTask(d, m, ParseHM(m.time).value) in WeeklyMeetings(dates, meetings).value
    {
      MeetingIsWeeklyEntry(dates, meetings, d, m);
    }
  }

  /** Each scheduled entry is a meeting on one of the dates, on that meeting's day of the week. */
  lemma WeeklyEntryIsMeeting(dates: seq<int>, meetings: seq<Meeting>, e: Task)
    requires forall d :: d in dates ==> ValidOrdinal(d)
    requires WeeklyMeetings(dates, meetings).Ok? && e in WeeklyMeetings(dates, meetings).value
    ensures exists d, m :: d in dates && m in meetings && Weekday(d) + 1 == m.dayOfWeek &&
                           ParseHM(m.time).Some? && e == MeetingTask(d, m, ParseHM(m.time).value)
  {
    var keys, step := WeekKeys(dates), WeekStep(dates, meetings);
    ConcatEntriesFrom(keys, step, e);
    var k :| k in keys && step(k).Ok? && e in step(k).value;
    var week := WeekDates(dates, k);
    WeekEntries(week, meetings);
    var m :| m in meetings && FirstOnDay(week, m.dayOfWeek).Some? && ParseHM(m.time).Some? &&
      e == MeetingTask(FirstOnDay(week, m.dayOfWeek).value, m, ParseHM(m.time).value);
    var d := FirstOnDay(week, m.dayOfWeek).value;
    assert d in dates && Weekday(d) + 1 == m.dayOfWeek;
  }

  /** A meeting held on the weekday of one of the dates is scheduled on that date. */
  lemma MeetingIsWeeklyEntry(dates: seq<int>, meetings: seq<Meeting>, d: int, m: Meeting)
    requires forall d :: d in dates ==> ValidOrdinal(d)
    requires WeeklyMeetings(dates, meetings).Ok?
    requires d in dates && m in meetings && Weekday(d) + 1 == m.dayOfWeek && ParseHM(m.time).Some?
    ensures MeetingTask(d, m, ParseHM(m.time).value) in WeeklyMeetings(dates, meetings).value
  {
    var keys, step := WeekKeys(dates), WeekStep(dates, meetings);
    var k := MondayOf(d);
    WeekKeysExactly(dates);
    assert k in keys;
    var week := WeekDates(dates, k);
    WeekDatesExactly(dates, k);
    var target := FirstOnDay(week, m.dayOfWeek);
    SameWeekSameDay(d, target.value);
    ConcatEntriesStepOk(keys, step, k);
    assert step(k) == WeekMeetings(week, meetings);
    WeekEntries(week, meetings);
    ConcatEntriesHas(keys, step, k, MeetingTask(d, m, ParseHM(m.time).value));
  }

  /** The schedule fails only on a meeting time that does not read as `HH:MM`, and then names it. */
  lemma WeeklyMeetingsErrors(dates: seq<int>, meetings: seq<Meeting>)
    requires forall d :: d in dates ==> ValidOrdinal(d)
    ensures (forall m :: m in meetings ==> ParseHM(m.time).Some?) ==> WeeklyMeetings(dates, meetings).Ok?
    ensures WeeklyMeetings(dates, meetings).Err? ==>
      exists m :: m in meetings && ParseHM(m.time).None? && WeeklyMeetings(dates, meetings).error == BadTime(m.time)
  {
    if meetings != [] {
      var keys, step := WeekKeys(dates), WeekStep(dates, meetings);
      ConcatEntriesParts(keys, step);
      forall k | k in keys
        ensures step(k).Ok? <== (forall m :: m in meetings ==> ParseHM(m.time).Some?)
        ensures step(k).Err? ==> exists m :: m in meetings && ParseHM(m.time).None? && step(k).error == BadTime(m.time)
      {
        var week := WeekDates(dates, k);
        ConcatEntriesParts(meetings, MeetingStep(week));
        assert forall m :: MeetingStep(week)(m) == MeetingEntry(week, m);
      }
    }
  }

  /** At most one entry per week and meeting. */
  lemma WeeklyMeetingsCount(dates: seq<int>, meetings: seq<Meeting>)
    requires forall d :: d in dates ==> ValidOrdinal(d)
    requires WeeklyMeetings(dates, meetings).Ok?
    ensures |WeeklyMeetings(dates, meetings).value| <= |meetings| * |WeekKeys(dates)|
  {
    var keys, step := WeekKeys(dates), WeekStep(dates, meetings);
    forall k | k in keys && step(k).Ok?
      ensures |step(k).value| <= |meetings|
    {
      WeekMeetingsCount(WeekDates(dates, k), meetings);
    }
    ConcatEntriesLength(keys, step, |meetings|);
  }

  /** At most one entry per meeting in a week. */
  lemma WeekMeetingsCount(week: seq<int>, meetings: seq<Meeting>)
    requires forall d :: d in week ==> ValidOrdinal(d)
    ensures WeekMeetings(week, meetings).Ok? ==> |WeekMeetings(week, meetings).value| <= |meetings|
  {
    ConcatEntriesLength(meetings, MeetingStep(week), 1);
  }

  // ---------------------------------------------------------------- spreading tasks

  /** A block of work: its start (minutes from 1900-01-01 00:00) and its length in minutes. */
  datatype Block = Block(start: int, length: int)

  /** A block placed on a date, the date written as `YYYY-MM-DD`. */
  datatype Placed = Placed(date: string, block: Block)

  /** The time an existing entry takes: its `duration` if it has one, else the length of its interval. */
  function TaskMinutes(e: Task): int {
    if e.duration.Some? then e.duration.value else CalculateDuration(e.start, e.end)
  }

  /** The time the existing entries dated `ds` take altogether. */
  function UsedMinutes(existing: seq<Task>, ds: string): int {
    if existing == [] then 0
    else
      var e := existing[|existing| - 1];
      UsedMinutes(existing[..|existing| - 1], ds) + (if e.date == ds then TaskMinutes(e) else 0)
  }

  /** `daily_available[ds]`: eight hours less the time already taken, never below zero. */
  function Available(existing: seq<Task>, ds: string): int {
    var used := UsedMinutes(existing, ds);
    if 480 - used > 0 then 480 - used else 0
  }

  /** The existing entries dated `ds`, in their order. */
  function OnDate(existing: seq<Task>, ds: string): (r: seq<Task>)
    ensures forall e :: e in r <==> e in existing && e.date == ds
  {
    if existing == [] then []
    else
      var e := existing[|existing| - 1];
      OnDate(existing[..|existing| - 1], ds) + (if e.date == ds then [e] else [])
  }

  /** The order of `sorted(day_meetings, key=lambda x: x['start'])`. */
  predicate StartLess(a: Task, b: Task) {
    StrLess(a.start, b.start)
  }

  /** Every entry's start and end read as `HH:MM`. */
  predicate TimesParse(ms: seq<Task>) {
    forall e :: e in ms ==> ParseHM(e.start).Some? && ParseHM(e.end).Some?
  }

  /** The clock after the skip loop: it moves to a meeting's end only while that meeting starts at or before it. */
  function SkipMeetings(ms: seq<Task>, current: int): (r: int)
    requires TimesParse(ms)
    ensures r >= current
    ensures r == current || exists e :: e in ms && r == ParseHM(e.end).value
  {
    if ms == [] then current
    else if current < ParseHM(ms[0].start).value then current
    else
      var end := ParseHM(ms[0].end).value;
      var r := SkipMeetings(ms[1..], if current > end then current else end);
      assert forall e :: e in ms[1..] ==> e in ms;
      r
  }

  /** The blocks of one day: `count` tasks left, `avail` minutes free, the clock at `current`. */
  function DayBlocks(count: nat, avail: int, current: int): (bs: seq<Block>)
    ensures |bs| <= count
    decreases count
  {
    if count == 0 || avail <= 30 then []
    else
      var length := if avail < 120 then avail else 120;
      var end := current + length;
      if Hour(end) >= 18 then [] else [Block(current, length)] + DayBlocks(count - 1, avail - length, end + 15)
  }

  /** The entries of day `ds` in start order, and that they all still read as times. */
  function DayMeetings(existing: seq<Task>, ds: string): (r: seq<Task>)
    requires TimesParse(existing)
    ensures TimesParse(r)
  {
    var r := StableSort(OnDate(existing, ds), StartLess);
    StableSortPermutes(OnDate(existing, ds), StartLess);
    assert forall e :: e in r ==> e in multiset(r);
    r
  }

  /** What the loop body does for working date `d` when `idx` tasks are already placed. */
  function DayPlan(count: nat, existing: seq<Task>, ds: string, idx: nat): (p: seq<Placed>)
    requires TimesParse(existing)
    ensures idx <= count ==> |p| <= count - idx
    ensures forall q :: q in p ==> q.date == ds
  {
    var avail := Available(existing, ds);
    if avail <= 0 || idx >= count then []
    else
      Place(ds, DayBlocks(count - idx, avail, SkipMeetings(DayMeetings(existing, ds), 540)))
  }

  /** The blocks of all working days in order; the `k`-th block carries the `k`-th task. */
  function Plan(count: nat, dates: seq<string>, existing: seq<Task>): (p: seq<Placed>)
    requires TimesParse(existing)
    ensures |p| <= count
  {
    if dates == [] then []
    else
      var p := Plan(count, dates[..|dates| - 1], existing);
      p + DayPlan(count, existing, dates[|dates| - 1], |p|)
  }

  /** One more day extends the plan by that day's blocks. */
  lemma PlanStep(count: nat, dates: seq<string>, i: nat, existing: seq<Task>)
    requires i < |dates| && TimesParse(existing)
    ensures Plan(count, dates[..i + 1], existing)
      == Plan(count, dates[..i], existing) + DayPlan(count, existing, dates[i], |Plan(count, dates[..i], existing)|)
  {
    assert dates[..i + 1][..i] == dates[..i];
  }

  /** A copy of task `t` with the date, start, end and duration of the block `p`. */
  function Stamp(t: Task, p: Placed): Task {
    t.(date := p.date, start := FormatHM(p.block.start),
       end := FormatHM(p.block.start + p.block.length), duration := Some(p.block.length))
  }

  /** The blocks `bs` placed on the date `ds`. */
  function Place(ds: string, bs: seq<Block>): (p: seq<Placed>)
    ensures |p| == |bs| && forall k :: 0 <= k < |bs| ==> p[k] == Placed(ds, bs[k])
  {
    seq(|bs|, k requires 0 <= k < |bs| => Placed(ds, bs[k]))
  }

  /** `f` applied to the elements of `xs` and `ys` that stand at the same place. */
  function Pairwise<A, B, C>(xs: seq<A>, ys: seq<B>, f: (A, B) -> C): (r: seq<C>)
    requires |ys| <= |xs|
    ensures |r| == |ys|
  {
    if ys == [] then []
    else Pairwise(xs, ys[..|ys| - 1], f) + [f(xs[|ys| - 1], ys[|ys| - 1])]
  }

  lemma {:induction false} PairwiseAppend<A, B, C>(xs: seq<A>, ys: seq<B>, zs: seq<B>, f: (A, B) -> C)
    requires |ys| + |zs| <= |xs|
    ensures Pairwise(xs, ys + zs, f) == Pairwise(xs, ys, f) + Pairwise(xs[|ys|..], zs, f)
  {
    if zs == [] {
      assert ys + zs == ys;
    } else {
      var front := zs[..|zs| - 1];
      assert (ys + zs)[..|ys + zs| - 1] == ys + front;
      PairwiseAppend(xs, ys, front, f);
    }
  }

  /** The tasks stamped with a plan, in order. */
  function StampAll(tasks: seq<Task>, plan: seq<Placed>): (r: seq<Task>)
    requires |plan| <= |tasks|
  {
    Pairwise(tasks, plan, Stamp)
  }

  /** `_spread_tasks_evenly`. */
  function Spread(tasks: seq<Task>, dates: seq<string>, existing: seq<Task>): seq<Task>
    requires TimesParse(existing)
  {
    if tasks == [] || dates == [] then []
    else StampAll(tasks, Plan(|tasks|, dates, existing))
  }

  /** The skip loop of `_spread_tasks_evenly`: the clock from 09:00 past the day's first meetings. */
  method SkipPastMeetings(sorted: seq<Task>) returns (current: int)
    requires TimesParse(sorted)
    ensures current == SkipMeetings(sorted, 540)
  {
    current := 540;
    var j := 0;
    while j < |sorted|
      invariant 0 <= j <= |sorted|
      invariant SkipMeetings(sorted[j..], current) == SkipMeetings(sorted, 540)
    {
      var meetingStart := ParseHM(sorted[j].start).value;
      SkipMeetingsAt(sorted, j, current);
      if current < meetingStart {
        break;
      }
      var meetingEnd := ParseHM(sorted[j].end).value;
      current := if current > meetingEnd then current else meetingEnd;
      j := j + 1;
    }
  }

  /** One turn of the skip loop: it stops before meeting `j`, or moves past it. */
  lemma SkipMeetingsAt(ms: seq<Task>, j: nat, current: int)
    requires TimesParse(ms) && j < |ms|
    ensures TimesParse(ms[j..]) && TimesParse(ms[j + 1..])
    ensures var start, end := ParseHM(ms[j].start).value, ParseHM(ms[j].end).value;
      SkipMeetings(ms[j..], current)
      == if current < start then current else SkipMeetings(ms[j + 1..], if current > end then current else end)
  {
    TimesParseSuffix(ms, j);
    TimesParseSuffix(ms, j + 1);
    var t := ms[j..];
    assert t[1..] == ms[j + 1..] && t[0] == ms[j];
  }

  lemma TimesParseSuffix(ms: seq<Task>, j: nat)
    requires TimesParse(ms) && j <= |ms|
    ensures TimesParse(ms[j..])
  {
    forall e | e in ms[j..] ensures e in ms {
      var k :| 0 <= k < |ms[j..]| && ms[j..][k] == e;
      assert ms[j + k] == e;
    }
  }

  /** The inner `while` of `_spread_tasks_evenly`: the blocks of one day, until time, tasks or the evening run out. */
  method FillDay(count: nat, avail: int, current: int) returns (blocks: seq<Block>)
    ensures blocks == DayBlocks(count, avail, current)
  {
    blocks := [];
    var left, remaining, clock := count, avail, current;
    while left > 0 && remaining > 30
      invariant blocks + DayBlocks(left, remaining, clock) == DayBlocks(count, avail, current)
    {
      var length := if remaining < 120 then remaining else 120;
      var end := clock + length;
      if Hour(end) >= 18 {
        break;
      }
      DayBlocksStep(blocks, left, remaining, clock);
      blocks := blocks + [Block(clock, length)];
      clock := end + 15;
      remaining := remaining - length;
      left := left - 1;
    }
    assert blocks + [] == blocks;
  }

  /** One turn of `FillDay`'s loop: the block it places is the next block of the day. */
  lemma DayBlocksStep(done: seq<Block>, count: nat, remaining: int, clock: int)
    requires count > 0 && remaining > 30
    requires Hour(clock + (if remaining < 120 then remaining else 120)) < 18
    ensures var length := if remaining < 120 then remaining else 120;
      done + DayBlocks(count, remaining, clock)
      == (done + [Block(clock, length)]) + DayBlocks(count - 1, remaining - length, clock + length + 15)
  {
  }

  /** The first loop of `_spread_tasks_evenly`: the free minutes of every working date, keyed by the date's text. */
  method AvailableByDate(dates: seq<string>, existing: seq<Task>) returns (available: map<string, int>)
    ensures forall ds :: ds in available ==> available[ds] == Available(existing, ds)
    ensures forall ds :: ds in dates ==> ds in available
  {
    available := map[];
    for i := 0 to |dates|
      invariant forall ds :: ds in available ==> available[ds] == Available(existing, ds)
      invariant forall ds :: ds in dates[..i] ==> ds in available
    {
      assert dates[..i + 1] == dates[..i] + [dates[i]];
      var ds := dates[i];
      var used := UsedMinutes(existing, ds);
      available := available[ds := if 480 - used > 0 then 480 - used else 0];
    }
    assert dates[..|dates|] == dates;
  }

  /** One turn of the outer loop of `_spread_tasks_evenly`: the tasks from `idx` on placed on date `ds`. */
  method SpreadDay(tasks: seq<Task>, idx: nat, ds: string, avail: int, existing: seq<Task>) returns (more: seq<Task>)
    requires idx < |tasks| && TimesParse(existing) && avail == Available(existing, ds) && avail > 0
    ensures more == StampAll(tasks[idx..], DayPlan(|tasks|, existing, ds, idx))
  {
    var current := SkipPastMeetings(DayMeetings(existing, ds));
    var blocks := FillDay(|tasks| - idx, avail, current);
    var placed := Place(ds, blocks);
    assert placed == DayPlan(|tasks|, existing, ds, idx);
    assert |placed| <= |tasks[idx..]|;
    more := StampAll(tasks[idx..], placed);
  }

  /** What one more working day adds to the output of `Spread`. */
  lemma SpreadStep(tasks: seq<Task>, dates: seq<string>, i: nat, existing: seq<Task>, plan: seq<Placed>, more: seq<Task>)
    requires i < |dates| && TimesParse(existing)
    requires plan == Plan(|tasks|, dates[..i], existing)
    requires more == StampAll(tasks[|plan|..], DayPlan(|tasks|, existing, dates[i], |plan|))
    ensures |Plan(|tasks|, dates[..i + 1], existing)| == |plan| + |more|
    ensures StampAll(tasks, Plan(|tasks|, dates[..i + 1], existing)) == StampAll(tasks, plan) + more
  {
    PlanStep(|tasks|, dates, i, existing);
    PairwiseAppend(tasks, plan, DayPlan(|tasks|, existing, dates[i], |plan|), Stamp);
  }

  /**
   * `_spread_tasks_evenly`: the free time of every working date, then the dates filled one
   * after another. `dates` are the working dates as `YYYY-MM-DD` text, each written once.
   */
  method SpreadTasksEvenly(tasks: seq<Task>, dates: seq<string>, existing: seq<Task>) returns (out: seq<Task>)
    requires TimesParse(existing)
    ensures out == Spread(tasks, dates, existing)
  {
    if |tasks| == 0 || |dates| == 0 {
      return [];
    }
    var available := AvailableByDate(dates, existing);
    out := [];
    var idx := 0;
    ghost var plan: seq<Placed> := [];
    for i := 0 to |dates|
      invariant plan == Plan(|tasks|, dates[..i], existing)
      invariant idx == |plan| && out == StampAll(tasks, plan)
    {
      var ds := dates[i];
      assert ds in dates;
      var more := [];
      if available[ds] > 0 && idx < |tasks| {
        more := SpreadDay(tasks, idx, ds, available[ds], existing);
      } else {
        assert DayPlan(|tasks|, existing, ds, idx) == [];
      }
      SpreadStep(tasks, dates, i, existing, plan, more);
      plan := Plan(|tasks|, dates[..i + 1], existing);
      out := out + more;
      idx := idx + |more|;
    }
    assert dates[..|dates|] == dates;
  }

  // ---------------------------------------------------------------- what spreading promises

  /** The minutes the blocks `bs` take altogether. */
  function TotalLength(bs: seq<Block>): int {
    if bs == [] then 0 else bs[0].length + TotalLength(bs[1..])
  }

  /**
   * A day's blocks start at the clock and follow one another with a 15-minute break; each is
   * longer than half an hour and at most two hours, each ends before 18:00, and together they
   * fit in the free time.
   */
  lemma DayBlocksShape(count: nat, avail: int, current: int)
    ensures var bs := DayBlocks(count, avail, current);
      (bs != [] ==> bs[0].start == current && TotalLength(bs) <= avail)
      && (forall k :: 0 <= k < |bs| ==>
            30 < bs[k].length <= 120 && bs[k].start >= current && Hour(bs[k].start + bs[k].length) < 18)
      && (forall k :: 0 <= k < |bs| - 1 ==> bs[k + 1].start == bs[k].start + bs[k].length + 15)
  {
    DayBlocksTotal(count, avail, current);
    DayBlocksEach(count, avail, current);
    DayBlocksChain(count, avail, current);
  }

  /** The first block starts at the clock, and the blocks together take no more than the free time. */
  lemma {:induction false} DayBlocksTotal(count: nat, avail: int, current: int)
    ensures var bs := DayBlocks(count, avail, current);
      bs != [] ==> bs[0].start == current && TotalLength(bs) <= avail
    decreases count
  {
    var bs := DayBlocks(count, avail, current);
    if bs != [] {
      var length := if avail < 120 then avail else 120;
      var rest := DayBlocks(count - 1, avail - length, current + length + 15);
      DayBlocksTotal(count - 1, avail - length, current + length + 15);
      assert bs == [Block(current, length)] + rest;
      assert bs[1..] == rest;
    }
  }

  /** Each block is longer than half an hour, at most two hours, not before the clock, and ends before 18:00. */
  lemma DayBlocksEach(count: nat, avail: int, current: int)
    ensures var bs := DayBlocks(count, avail, current);
      forall k :: 0 <= k < |bs| ==>
        30 < bs[k].length <= 120 && bs[k].start >= current && Hour(bs[k].start + bs[k].length) < 18
  {
    forall k | 0 <= k < |DayBlocks(count, avail, current)|
      ensures var b := DayBlocks(count, avail, current)[k];
        30 < b.length <= 120 && b.start >= current && Hour(b.start + b.length) < 18
    {
      DayBlockAt(count, avail, current, k);
    }
  }

  /** The `k`-th block of a day, by induction on `k`. */
  lemma {:induction false} DayBlockAt(count: nat, avail: int, current: int, k: nat)
    requires k < |DayBlocks(count, avail, current)|
    ensures var b := DayBlocks(count, avail, current)[k];
      30 < b.length <= 120 && b.start >= current && Hour(b.start + b.length) < 18
    decreases count
  {
    var length := if avail < 120 then avail else 120;
    var next := current + length + 15;
    var rest := DayBlocks(count - 1, avail - length, next);
    assert DayBlocks(count, avail, current) == [Block(current, length)] + rest;
    if k > 0 {
      DayBlockAt(count - 1, avail - length, next, k - 1);
      assert DayBlocks(count, avail, current)[k] == rest[k - 1];
    }
  }

  /** Each block starts 15 minutes after the one before it ends. */
  lemma DayBlocksChain(count: nat, avail: int, current: int)
    ensures var bs := DayBlocks(count, avail, current);
      forall k :: 0 <= k < |bs| - 1 ==> bs[k + 1].start == bs[k].start + bs[k].length + 15
  {
    forall k | 0 <= k < |DayBlocks(count, avail, current)| - 1
      ensures var bs := DayBlocks(count, avail, current); bs[k + 1].start == bs[k].start + bs[k].length + 15
    {
      DayBlockNext(count, avail, current, k);
    }
  }

  /** The block after the `k`-th, by induction on `k`. */
  lemma {:induction false} DayBlockNext(count: nat, avail: int, current: int, k: nat)
    requires k + 1 < |DayBlocks(count, avail, current)|
    ensures var bs := DayBlocks(count, avail, current); bs[k + 1].start == bs[k].start + bs[k].length + 15
    decreases count
  {
    var length := if avail < 120 then avail else 120;
    var next := current + length + 15;
    var rest := DayBlocks(count - 1, avail - length, next);
    assert DayBlocks(count, avail, current) == [Block(current, length)] + rest;
    if k == 0 {
      DayBlocksTotal(count - 1, avail - length, next);
    } else {
      DayBlockNext(count - 1, avail - length, next, k - 1);
      assert DayBlocks(count, avail, current)[k] == rest[k - 1];
      assert DayBlocks(count, avail, current)[k + 1] == rest[k];
    }
  }

  /**
   * Why a day's loop ended after `n` of `count` blocks, with `left` minutes still to place and the
   * clock at `clock`: the tasks ran out, the free time is down to half an hour, or the next block
   * would end at 18:00 or later.
   */
  predicate LoopEnded(count: nat, n: nat, left: int, clock: int) {
    n == count || left <= 30 || Hour(clock + (if left < 120 then left else 120)) >= 18
  }

  /** A day's loop ends only when the tasks run out, the free time is down to half an hour, or the next block would end at 18:00 or later. */
  lemma {:induction false} DayBlocksStop(count: nat, avail: int, current: int)
    ensures var bs := DayBlocks(count, avail, current);
      LoopEnded(count, |bs|, avail - TotalLength(bs), EndClock(bs, current))
    decreases count
  {
    var bs := DayBlocks(count, avail, current);
    if bs == [] {
      NoBlocksStop(count, avail, current);
    } else {
      var length := if avail < 120 then avail else 120;
      var next := current + length + 15;
      DayBlocksStop(count - 1, avail - length, next);
      StopAfterFirst(count, avail, current);
    }
  }

  /** If the loop ended for the day after the first block, it ended for the whole day. */
  lemma StopAfterFirst(count: nat, avail: int, current: int)
    requires DayBlocks(count, avail, current) != []
    requires var length := if avail < 120 then avail else 120;
      var rest := DayBlocks(count - 1, avail - length, current + length + 15);
      LoopEnded(count - 1, |rest|, avail - length - TotalLength(rest), EndClock(rest, current + length + 15))
    ensures var bs := DayBlocks(count, avail, current);
      LoopEnded(count, |bs|, avail - TotalLength(bs), EndClock(bs, current))
  {
    var length := if avail < 120 then avail else 120;
    var next := current + length + 15;
    var rest := DayBlocks(count - 1, avail - length, next);
    DayBlocksCons(count, avail, current);
    LoopEndedStep(count, |rest|, avail - length - TotalLength(rest), EndClock(rest, next));
  }

  /** The clock after the blocks `bs` of a day whose loop started at `current`. */
  function EndClock(bs: seq<Block>, current: int): int {
    if bs == [] then current else bs[|bs| - 1].start + bs[|bs| - 1].length + 15
  }

  /** A day with no block: the loop stopped before its first turn. */
  lemma NoBlocksStop(count: nat, avail: int, current: int)
    requires DayBlocks(count, avail, current) == []
    ensures LoopEnded(count, 0, avail, current)
  {
  }

  /** A day with blocks: the first one, then the day that starts after it and its break. */
  lemma DayBlocksCons(count: nat, avail: int, current: int)
    requires DayBlocks(count, avail, current) != []
    ensures var length := if avail < 120 then avail else 120;
      var bs, rest := DayBlocks(count, avail, current), DayBlocks(count - 1, avail - length, current + length + 15);
      |bs| == |rest| + 1 && TotalLength(bs) == length + TotalLength(rest)
      && EndClock(bs, current) == EndClock(rest, current + length + 15)
  {
    var length := if avail < 120 then avail else 120;
    var next := current + length + 15;
    var bs, rest := DayBlocks(count, avail, current), DayBlocks(count - 1, avail - length, next);
    assert bs == [Block(current, length)] + rest;
    assert bs[1..] == rest;
    if rest != [] {
      assert bs[|bs| - 1] == rest[|rest| - 1];
    }
  }

  /** One more block placed before the loop ended: the same reason still holds. */
  lemma LoopEndedStep(count: nat, n: nat, left: int, clock: int)
    requires count >= 1 && LoopEnded(count - 1, n, left, clock)
    ensures LoopEnded(count, n + 1, left, clock)
  {
  }

  /** Pairing puts `f` of the `k`-th elements at place `k`. */
  lemma {:induction false} PairwiseAt<A, B, C>(xs: seq<A>, ys: seq<B>, f: (A, B) -> C, k: nat)
    requires |ys| <= |xs| && k < |ys|
    ensures Pairwise(xs, ys, f)[k] == f(xs[k], ys[k])
    decreases |ys|
  {
    if k < |ys| - 1 {
      PairwiseAt(xs, ys[..|ys| - 1], f, k);
    }
  }

  /** A block of work inside office hours: after 09:00, ending before 18:00, over half an hour and at most two hours. */
  predicate WorkBlock(b: Block) {
    30 < b.length <= 120 && b.start >= 540 && Hour(b.start + b.length) < 18
  }

  /** The blocks of a day that starts at or after 09:00 are work blocks. */
  lemma DayWorkBlocks(count: nat, avail: int, current: int)
    requires current >= 540
    ensures forall b :: b in DayBlocks(count, avail, current) ==> WorkBlock(b)
  {
    DayBlocksEach(count, avail, current);
  }

  /** Placing blocks on `ds` keeps the blocks and dates them `ds`. */
  lemma PlaceMembers(ds: string, bs: seq<Block>)
    ensures forall q :: q in Place(ds, bs) ==> q.date == ds && q.block in bs
  {
    forall q | q in Place(ds, bs) ensures q.date == ds && q.block in bs {
      var k :| 0 <= k < |bs| && Place(ds, bs)[k] == q;
    }
  }

  /** A day's share of the plan is made of work blocks on that day. */
  lemma DayPlanBlocks(count: nat, existing: seq<Task>, ds: string, idx: nat)
    requires TimesParse(existing)
    ensures forall q :: q in DayPlan(count, existing, ds, idx) ==> q.date == ds && WorkBlock(q.block)
  {
    var avail := Available(existing, ds);
    if avail > 0 && idx < count {
      var start := SkipMeetings(DayMeetings(existing, ds), 540);
      var bs := DayBlocks(count - idx, avail, start);
      assert DayPlan(count, existing, ds, idx) == Place(ds, bs);
      DayWorkBlocks(count - idx, avail, start);
      PlaceMembers(ds, bs);
    }
  }

  /** Every placed block is a work block on one of the dates. */
  lemma {:induction false} PlanBlocks(count: nat, dates: seq<string>, existing: seq<Task>)
    requires TimesParse(existing)
    ensures forall q :: q in Plan(count, dates, existing) ==> q.date in dates && WorkBlock(q.block)
  {
    if dates != [] {
      var front := dates[..|dates| - 1];
      var p := Plan(count, front, existing);
      PlanBlocks(count, front, existing);
      DayPlanBlocks(count, existing, dates[|dates| - 1], |p|);
      assert forall ds :: ds in front ==> ds in dates;
    }
  }

  /** A task stamped with a work block keeps all but its timing, lasts the block and ends before 18:00. */
  lemma StampShape(t: Task, q: Placed)
    requires WorkBlock(q.block)
    ensures var r := Stamp(t, q);
      r == t.(date := r.date, start := r.start, end := r.end, duration := r.duration)
      && r.date == q.date && r.duration == Some(q.block.length)
      && ParseHM(r.end).Some? && ParseHM(r.end).value < 18 * 60
  {
    var e := q.block.start + q.block.length;
    ParseFormatHM(e);
    TimeOfDay(e);
  }

  /**
   * Spreading keeps the tasks in their order and changes only their date, start, end and
   * duration: it puts each on one of the working dates, ending before 18:00, for more than half
   * an hour and at most two hours, and places no more tasks than it was given.
   */
  lemma SpreadShape(tasks: seq<Task>, dates: seq<string>, existing: seq<Task>)
    requires TimesParse(existing)
    ensures var out := Spread(tasks, dates, existing);
      |out| <= |tasks|
      && forall k :: 0 <= k < |out| ==>
        out[k] == tasks[k].(date := out[k].date, start := out[k].start, end := out[k].end, duration := out[k].duration)
        && out[k].date in dates && out[k].duration.Some? && 30 < out[k].duration.value <= 120
        && ParseHM(out[k].end).Some? && ParseHM(out[k].end).value < 18 * 60
  {
    if tasks != [] && dates != [] {
      var plan := Plan(|tasks|, dates, existing);
      PlanBlocks(|tasks|, dates, existing);
      var out := Spread(tasks, dates, existing);
      forall k | 0 <= k < |out|
        ensures out[k] == tasks[k].(date := out[k].date, start := out[k].start, end := out[k].end, duration := out[k].duration)
        ensures out[k].date in dates && out[k].duration.Some? && 30 < out[k].duration.value <= 120
        ensures ParseHM(out[k].end).Some? && ParseHM(out[k].end).value < 18 * 60
      {
        PairwiseAt(tasks, plan, Stamp, k);
        assert plan[k] in plan;
        StampShape(tasks[k], plan[k]);
      }
    }
  }

  // ---------------------------------------------------------------- exact times

  /** The working dates are real dates. */
  predicate ValidDates(working: seq<int>) {
    forall d :: d in working ==> ValidOrdinal(d)
  }

  /**
   * A task dictionary after `_adjust_exact_times` has looked at it: a task on a working date
   * starting before 09:00 is moved to 09:00-10:00, one starting at 17:00 or later to
   * 16:00-17:00; a task without a date or start goes to the first working date at 09:00-10:00.
   */
  function Touch(t: Task, working: seq<int>): Task
    requires ValidDates(working)
  {
    if t.date != "" && t.start != "" then
      var d, h := ParseDate(t.date), ParseHM(t.start);
      if d.None? || d.value !in working || h.None? then t
      else if Hour(h.value) < 9 then t.(start := "09:00", end := "10:00")
      else if Hour(h.value) >= 17 then t.(start := "16:00", end := "17:00")
      else t
    else if working == [] then t
    else t.(date := FormatDate(working[0]), start := "09:00", end := "10:00")
  }

  /** One turn of `_adjust_exact_times`: the task kept (updated), dropped, or the `ValueError` of an unreadable date or start. */
  function AdjustEntry(t: Task, working: seq<int>): Result<seq<Task>, string>
    requires ValidDates(working)
  {
    if t.date != "" && t.start != "" then
      var d := ParseDate(t.date);
      if d.None? then Err(BadDate(t.date))
      else if d.value !in working then Ok([])
      else if ParseHM(t.start).None? then Err(BadTime(t.start))
      else Ok([Touch(t, working)])
    else if working == [] then Ok([])
    else Ok([Touch(t, working)])
  }

  /** `AdjustEntry` as a step over the tasks. */
  function AdjustStep(working: seq<int>): Task --> Result<seq<Task>, string> {
    (t: Task) requires ValidDates(working) => AdjustEntry(t, working)
  }

  /** `_adjust_exact_times`: the kept tasks in order, or the first `ValueError`. */
  function AdjustExact(tasks: seq<Task>, working: seq<int>): Result<seq<Task>, string>
    requires ValidDates(working)
  {
    ConcatEntries(tasks, AdjustStep(working))
  }

  /**
   * `_adjust_exact_times` over the task dictionaries, updated in place: on success every task
   * has been looked at; on a `ValueError` the tasks before the failing one have been updated
   * and the rest are as they were.
   */
  method AdjustExactTimes(a: array<Task>, working: seq<int>) returns (r: Result<seq<Task>, string>)
    requires ValidDates(working)
    modifies a
    ensures r == AdjustExact(old(a[..]), working)
    ensures r.Ok? ==> a[..] == TouchPrefix(old(a[..]), a.Length, working)
    ensures r.Err? ==>
      exists k :: 0 <= k < a.Length && AdjustEntry(old(a[..])[k], working) == r
        && a[..] == TouchPrefix(old(a[..]), k, working)
  {
    ghost var orig := a[..];
    var step := AdjustStep(working);
    var out := [];
    for i := 0 to a.Length
      invariant a.Length == |orig|
      invariant a[..] == TouchPrefix(orig, i, working)
      invariant ConcatEntries(orig[..i], step) == Ok(out)
    {
      var e := AdjustEntry(orig[i], working);
      assert ConcatEntries(orig[..i + 1], step) == if e.Err? then e else Ok(out + e.value) by {
        assert step(orig[i]) == e;
        ConcatEntriesNext(orig, step, i, out);
      }
      assert a[i] == orig[i];
      var entry := AdjustAt(a, i, working);
      if entry.Err? {
        assert ConcatEntries(orig, step) == entry by {
          ConcatEntriesErr(orig, step, i + 1);
        }
        return entry;
      }
      TouchPrefixNext(orig, i, working);
      out := out + entry.value;
    }
    assert orig[..a.Length] == orig;
    return Ok(out);
  }

  /** The tasks with the first `k` touched and the rest as they were. */
  function TouchPrefix(ts: seq<Task>, k: nat, working: seq<int>): (r: seq<Task>)
    requires k <= |ts| && ValidDates(working)
    ensures |r| == |ts|
    ensures forall j :: 0 <= j < |ts| ==> r[j] == if j < k then Touch(ts[j], working) else ts[j]
  {
    seq(|ts|, j requires 0 <= j < |ts| => if j < k then Touch(ts[j], working) else ts[j])
  }

  /** Touching one more task. */
  lemma TouchPrefixNext(ts: seq<Task>, k: nat, working: seq<int>)
    requires k < |ts| && ValidDates(working)
    ensures TouchPrefix(ts, k + 1, working) == TouchPrefix(ts, k, working)[k := Touch(ts[k], working)]
  {
  }

  /** One turn of `_adjust_exact_times`' loop: the entry of task `i`, which is updated in place when it is kept. */
  method AdjustAt(a: array<Task>, i: nat, working: seq<int>) returns (entry: Result<seq<Task>, string>)
    requires ValidDates(working) && i < a.Length
    modifies a
    ensures entry == AdjustEntry(old(a[i]), working)
    ensures a[..] == if entry.Ok? then old(a[..])[i := Touch(old(a[i]), working)] else old(a[..])
  {
    var touched;
    entry, touched := AdjustTask(a[i], working);
    if entry.Ok? && entry.value != [] {
      a[i] := touched;
    }
  }

  /** The body of `_adjust_exact_times`' loop for one task: what it yields, and the task as it leaves it. */
  method AdjustTask(t: Task, working: seq<int>) returns (entry: Result<seq<Task>, string>, touched: Task)
    requires ValidDates(working)
    ensures entry == AdjustEntry(t, working) && touched == Touch(t, working)
    ensures entry.Ok? && entry.value == [] ==> touched == t
  {
    touched := t;
    if t.date != "" && t.start != "" {
      var d := ParseDate(t.date);
      if d.None? {
        return Err(BadDate(t.date)), t;
      }
      if d.value !in working {
        return Ok([]), t;
      }
      var h := ParseHM(t.start);
      if h.None? {
        return Err(BadTime(t.start)), t;
      }
      if Hour(h.value) < 9 {
        touched := t.(start := "09:00", end := "10:00");
      } else if Hour(h.value) >= 17 {
        touched := t.(start := "16:00", end := "17:00");
      }
      return Ok([touched]), touched;
    }
    if |working| == 0 {
      return Ok([]), t;
    }
    touched := t.(date := FormatDate(working[0]), start := "09:00", end := "10:00");
    entry := Ok([touched]);
  }

  /** A start time of business hours: it reads as a time whose hour is 9 to 16. */
  predicate InHours(s: string) {
    ParseHM(s).Some? && 9 <= Hour(ParseHM(s).value) < 17
  }

  /** A clock text `hs:ms` of two-digit fields reads as `t` minutes. */
  lemma ClockText(s: string, hs: string, ms: string, t: int)
    requires s == hs + ":" + ms && |hs| == 2 && |ms| == 2 && AllDigits(hs) && AllDigits(ms)
    requires DigitsValue(hs) <= 23 && DigitsValue(ms) <= 59 && DigitsValue(hs) * 60 + DigitsValue(ms) == t
    ensures ParseHM(s) == Some(t)
  {
    ParseHMText(hs, ms);
  }

  /** The two start times `_adjust_exact_times` writes are business-hours starts. */
  lemma ClockTexts()
    ensures ParseHM("09:00") == Some(540) && ParseHM("16:00") == Some(960)
    ensures InHours("09:00") && InHours("16:00")
  {
    DigitPairValue("00");
    DigitPairValue("09");
    DigitPairValue("16");
    ClockText("09:00", "09", "00", 540);
    ClockText("16:00", "16", "00", 960);
    BusinessHour(540);
    BusinessHour(960);
  }

  /** Minutes from 09:00 to 16:59 fall in business hours. */
  lemma BusinessHour(t: int)
    requires 9 * 60 <= t < 17 * 60
    ensures 9 <= Hour(t) < 17
  {
  }

  /** A task settled in business hours: dated on a working date and starting between 09:00 and 16:59. */
  predicate Settled(e: Task, working: seq<int>) {
    e.date != "" && e.start != ""
    && ParseDate(e.date).Some? && ParseDate(e.date).value in working
    && InHours(e.start)
  }

  /** What one task yields is settled, and differs from the task only in its date, start and end. */
  lemma AdjustEntryKept(t: Task, working: seq<int>)
    requires ValidDates(working)
    ensures AdjustEntry(t, working).Ok? ==>
      forall e :: e in AdjustEntry(t, working).value ==>
        Settled(e, working) && e == t.(date := e.date, start := e.start, end := e.end)
  {
    if AdjustEntry(t, working).Ok? {
      forall e | e in AdjustEntry(t, working).value
        ensures Settled(e, working) && e == t.(date := e.date, start := e.start, end := e.end)
      {
        assert AdjustEntry(t, working).value == [Touch(t, working)];
        if t.date != "" && t.start != "" {
          DatedSettled(t, working);
        } else {
          UndatedSettled(t, working);
        }
        TouchKeeps(t, working);
      }
    }
  }

  /** `Touch` changes at most the date, start and end of a task. */
  lemma TouchKeeps(t: Task, working: seq<int>)
    requires ValidDates(working)
    ensures var e := Touch(t, working); e == t.(date := e.date, start := e.start, end := e.end)
  {
  }

  /** A task dated on a working date with a readable start is settled by `Touch`. */
  lemma DatedSettled(t: Task, working: seq<int>)
    requires ValidDates(working) && t.date != "" && t.start != ""
    requires ParseDate(t.date).Some? && ParseDate(t.date).value in working && ParseHM(t.start).Some?
    ensures Settled(Touch(t, working), working)
  {
    var h := ParseHM(t.start).value;
    if Hour(h) < 9 {
      assert Touch(t, working) == t.(start := "09:00", end := "10:00");
      ClockTexts();
    } else if Hour(h) >= 17 {
      assert Touch(t, working) == t.(start := "16:00", end := "17:00");
      ClockTexts();
    } else {
      assert Touch(t, working) == t && InHours(t.start);
    }
  }

  /** A task without a date or start lands on the first working date at 09:00. */
  lemma UndatedSettled(t: Task, working: seq<int>)
    requires ValidDates(working) && (t.date == "" || t.start == "") && working != []
    ensures Settled(Touch(t, working), working)
  {
    ClockTexts();
    ParseFormatDate(working[0]);
  }

  /**
   * `_adjust_exact_times` keeps only tasks on working dates and pulls each into business hours,
   * changing nothing but its date, start and end.
   */
  lemma AdjustExactSettles(tasks: seq<Task>, working: seq<int>)
    requires ValidDates(working)
    ensures AdjustExact(tasks, working).Ok? ==>
      forall e :: e in AdjustExact(tasks, working).value ==>
        Settled(e, working) && exists t :: t in tasks && e == t.(date := e.date, start := e.start, end := e.end)
  {
    var step := AdjustStep(working);
    ConcatEntriesParts(tasks, step);
    if AdjustExact(tasks, working).Ok? {
      forall e | e in AdjustExact(tasks, working).value
        ensures Settled(e, working) && exists t :: t in tasks && e == t.(date := e.date, start := e.start, end := e.end)
      {
        var t :| t in tasks && e in step(t).value;
        AdjustEntryKept(t, working);
      }
    }
  }

  /** A task `_adjust_exact_times` has a place for: dated on a working date, or undated while there is a working date. */
  predicate Keepable(t: Task, working: seq<int>) {
    if t.date != "" && t.start != "" then ParseDate(t.date).Some? && ParseDate(t.date).value in working
    else working != []
  }

  /**
   * Nothing is lost without a reason: when adjusting succeeds, every task dated on a working
   * date, and every task without a date or start while there is a working date, is kept.
   */
  lemma AdjustExactKeeps(tasks: seq<Task>, working: seq<int>)
    requires ValidDates(working)
    ensures AdjustExact(tasks, working).Ok? ==>
      forall t :: t in tasks && Keepable(t, working) ==> Touch(t, working) in AdjustExact(tasks, working).value
  {
    var step := AdjustStep(working);
    ConcatEntriesParts(tasks, step);
    if AdjustExact(tasks, working).Ok? {
      forall t | t in tasks ensures step(t).Ok? {
      }
      forall t | t in tasks && Keepable(t, working)
        ensures Touch(t, working) in AdjustExact(tasks, working).value
      {
        assert Touch(t, working) in step(t).value;
      }
    }
  }

  /** Adjusting fails exactly on a dated task whose date does not read, or whose start does not read while its date is a working date. */
  lemma AdjustExactErrors(tasks: seq<Task>, working: seq<int>)
    requires ValidDates(working)
    ensures AdjustExact(tasks, working).Err? <==>
      exists t :: t in tasks && t.date != "" && t.start != "" &&
        (ParseDate(t.date).None? || (ParseDate(t.date).value in working && ParseHM(t.start).None?))
    ensures AdjustExact(tasks, working).Err? ==>
      exists t :: t in tasks &&
        (AdjustExact(tasks, working).error == BadDate(t.date) || AdjustExact(tasks, working).error == BadTime(t.start))
  {
    var step := AdjustStep(working);
    ConcatEntriesParts(tasks, step);
    if AdjustExact(tasks, working).Err? {
      var t :| t in tasks && step(t) == AdjustExact(tasks, working);
    }
  }

  /** Tasks that each yield themselves come through unchanged and in order. */
  lemma {:induction false} ConcatEntriesSame(xs: seq<Task>, f: Task --> Result<seq<Task>, string>)
    requires forall x :: x in xs ==> f.requires(x) && f(x) == Ok([x])
    ensures ConcatEntries(xs, f) == Ok(xs)
  {
    if xs != [] {
      var front := xs[..|xs| - 1];
      assert forall x :: x in front ==> x in xs;
      ConcatEntriesSame(front, f);
      assert front + [xs[|xs| - 1]] == xs;
    }
  }

  /** Adjusting what `_adjust_exact_times` returned changes nothing more. */
  lemma AdjustExactIdempotent(tasks: seq<Task>, working: seq<int>)
    requires ValidDates(working)
    ensures AdjustExact(tasks, working).Ok? ==>
      AdjustExact(AdjustExact(tasks, working).value, working) == AdjustExact(tasks, working)
  {
    if AdjustExact(tasks, working).Ok? {
      var kept := AdjustExact(tasks, working).value;
      AdjustExactSettles(tasks, working);
      var step := AdjustStep(working);
      forall e | e in kept ensures step(e) == Ok([e]) {
        assert Settled(e, working);
      }
      ConcatEntriesSame(kept, step);
    }
  }

  // ---------------------------------------------------------------- distributing

  /** The preferences `distribute_tasks` reads; an absent `distribution_method` is "". */
  datatype Preferences = Preferences(weeklyMeetings: seq<Meeting>, distributionMethod: string)

  /** The working dates as `YYYY-MM-DD`, the form `_spread_tasks_evenly` compares task dates with. */
  function DateTexts(working: seq<int>): (r: seq<string>)
    requires ValidDates(working)
    ensures |r| == |working| && forall k :: 0 <= k < |working| ==> r[k] == FormatDate(working[k])
  {
    seq(|working|, k requires 0 <= k < |working| => FormatDate(working[k]))
  }

  /** Each working date's text reads back as that date, so comparing texts compares dates. */
  lemma DateTextsReadBack(working: seq<int>)
    requires ValidDates(working)
    ensures forall k :: 0 <= k < |working| ==> ParseDate(DateTexts(working)[k]) == Some(working[k])
  {
    forall k | 0 <= k < |working| ensures ParseDate(DateTexts(working)[k]) == Some(working[k]) {
      assert working[k] in working;
      ParseFormatDate(working[k]);
    }
  }

  /** The order of `sorted(..., key=lambda x: (x['date'], x['start']))`. */
  predicate ScheduleLess(a: Task, b: Task) {
    PairLess((a.date, a.start), (b.date, b.start))
  }

  lemma ScheduleOrder()
    ensures StrictWeakOrder(ScheduleLess)
  {
    forall a: Task, b: Task | ScheduleLess(a, b) ensures !ScheduleLess(b, a) {
      PairAsymmetric((a.date, a.start), (b.date, b.start));
    }
    forall a: Task, b: Task, c: Task | !ScheduleLess(a, b) && !ScheduleLess(b, c)
      ensures !ScheduleLess(a, c)
    {
      PairNotLessTransitive((a.date, a.start), (b.date, b.start), (c.date, c.start));
    }
  }

  /** The business days of a range of real dates are real dates. */
  lemma WorkingDatesValid(start: int, end: int)
    requires ValidOrdinal(start) && ValidOrdinal(end)
    ensures ValidDates(BusinessDays(start, end))
  {
    BusinessDaysExactly(start, end);
  }

  /** A meeting entry whose time was read starts at that time and ends at a time that reads back. */
  lemma MeetingTaskTimes(d: int, m: Meeting, start: int)
    requires ValidOrdinal(d) && ParseHM(m.time) == Some(start)
    ensures ParseHM(MeetingTask(d, m, start).start).Some? && ParseHM(MeetingTask(d, m, start).end).Some?
  {
    MeetingOnTimes(FormatDate(d), m, start);
  }

  lemma MeetingOnTimes(date: string, m: Meeting, start: int)
    requires ParseHM(m.time) == Some(start)
    ensures ParseHM(MeetingOn(date, m, start).start).Some? && ParseHM(MeetingOn(date, m, start).end).Some?
  {
    ParseFormatHM(start + m.duration);
  }

  /** The meeting entries read back as times at both ends, as spreading needs of the entries it works around. */
  lemma MeetingTimesParse(dates: seq<int>, meetings: seq<Meeting>)
    requires ValidDates(dates) && WeeklyMeetings(dates, meetings).Ok?
    ensures TimesParse(WeeklyMeetings(dates, meetings).value)
  {
    WeeklyMeetingsEntries(dates, meetings);
    forall e | e in WeeklyMeetings(dates, meetings).value
      ensures ParseHM(e.start).Some? && ParseHM(e.end).Some?
    {
      var d, m :| d in dates && m in meetings && Weekday(d) + 1 == m.dayOfWeek && ParseHM(m.time).Some? &&
        e == MeetingTask(d, m, ParseHM(m.time).value);
      MeetingTaskTimes(d, m, ParseHM(m.time).value);
    }
  }

  /** The tasks joining the meetings: spread over the working days, or kept at their own times. */
  function Placements(tasks: seq<Task>, working: seq<int>, meetings: seq<Task>, how: string): Result<seq<Task>, string>
    requires ValidDates(working) && TimesParse(meetings)
  {
    if how == "spread" then Ok(Spread(tasks, DateTexts(working), meetings)) else AdjustExact(tasks, working)
  }

  /**
   * Everything `distribute_tasks` schedules, before sorting: the weekly meetings of the range's
   * business days, then the tasks. A `ValueError` or `OverflowError` of any stage is the error.
   */
  function Schedule(today: int, tasks: seq<Task>, text: string, prefs: Preferences): Result<seq<Task>, string>
    requires ValidOrdinal(today)
  {
    var range := TimeRange(today, text);
    if range.Err? then Err(range.error)
    else
      TimeRangeValid(today, text);
      var (start, end) := range.value;
      var working := GetBusinessDays(start, end);
      if working.Err? then Err(working.error)
      else
        WorkingDatesValid(start, end);
        var meetings := WeeklyMeetings(working.value, prefs.weeklyMeetings);
        if meetings.Err? then Err(meetings.error)
        else
          MeetingTimesParse(working.value, prefs.weeklyMeetings);
          var more := Placements(tasks, working.value, meetings.value, prefs.distributionMethod);
          if more.Err? then Err(more.error) else Ok(meetings.value + more.value)
  }

  /** `distribute_tasks`: the schedule sorted by date, then start. */
  function Distribute(today: int, tasks: seq<Task>, text: string, prefs: Preferences): Result<seq<Task>, string>
    requires ValidOrdinal(today)
  {
    var s := Schedule(today, tasks, text, prefs);
    if s.Err? then Err(s.error) else Ok(StableSort(s.value, ScheduleLess))
  }

  /**
   * The business days the placement stage works on, when the range, the business days and the
   * weekly meetings all succeed; `None` when an earlier stage fails.
   */
  function PlacementDays(today: int, text: string, prefs: Preferences): (r: Option<seq<int>>)
    requires ValidOrdinal(today)
    ensures r.Some? ==> ValidDates(r.value)
  {
    var range := TimeRange(today, text);
    if range.Err? then None
    else
      TimeRangeValid(today, text);
      var (start, end) := range.value;
      var working := GetBusinessDays(start, end);
      if working.Err? then None
      else
        WorkingDatesValid(start, end);
        if WeeklyMeetings(working.value, prefs.weeklyMeetings).Err? then None else Some(working.value)
  }

  /**
   * `distribute_tasks` over the task dictionaries: the exact-times branch updates them in
   * place, spreading copies them, and a stage that fails before the placement leaves them alone.
   */
  method DistributeTasks(today: int, tasks: array<Task>, text: string, prefs: Preferences)
    returns (r: Result<seq<Task>, string>)
    requires ValidOrdinal(today)
    modifies tasks
    ensures r == Distribute(today, old(tasks[..]), text, prefs)
    ensures prefs.distributionMethod == "spread" ==> tasks[..] == old(tasks[..])
    ensures PlacementDays(today, text, prefs).None? ==> tasks[..] == old(tasks[..])
    ensures var days := PlacementDays(today, text, prefs);
      prefs.distributionMethod != "spread" && days.Some? && r.Ok? ==>
        tasks[..] == TouchPrefix(old(tasks[..]), tasks.Length, days.value)
    ensures var days := PlacementDays(today, text, prefs);
      prefs.distributionMethod != "spread" && days.Some? && r.Err? ==>
        exists k :: 0 <= k < tasks.Length && tasks[..] == TouchPrefix(old(tasks[..]), k, days.value)
  {
    var range := ParseTimeRange(today, text);
    if range.Err? {
      return Err(range.error);
    }
    TimeRangeValid(today, text);
    var (start, end) := range.value;
    var working := BusinessDaysLoop(start, end);
    if working.Err? {
      return Err(working.error);
    }
    WorkingDatesValid(start, end);
    var meetings := AddWeeklyMeetings(working.value, prefs.weeklyMeetings);
    if meetings.Err? {
      return Err(meetings.error);
    }
    MeetingTimesParse(working.value, prefs.weeklyMeetings);
    var more: Result<seq<Task>, string>;
    if prefs.distributionMethod == "spread" {
      var spread := SpreadTasksEvenly(tasks[..], DateTexts(working.value), meetings.value);
      more := Ok(spread);
    } else {
      more := AdjustExactTimes(tasks, working.value);
    }
    if more.Err? {
      return Err(more.error);
    }
    return Ok(StableSort(meetings.value + more.value, ScheduleLess));
  }

  /**
   * The result is the schedule in `(date, start)` order, holding the same entries, as often;
   * entries with the same date and start keep the order the schedule had them in.
   */
  lemma DistributeSorted(today: int, tasks: seq<Task>, text: string, prefs: Preferences)
    requires ValidOrdinal(today)
    ensures Distribute(today, tasks, text, prefs).Ok? <==> Schedule(today, tasks, text, prefs).Ok?
    ensures Distribute(today, tasks, text, prefs).Ok? ==>
      var r, s := Distribute(today, tasks, text, prefs).value, Schedule(today, tasks, text, prefs).value;
      && Sorted(r, ScheduleLess)
      && multiset(r) == multiset(s)
      && forall k :: TiedWith(r, k, ScheduleLess) == TiedWith(s, k, ScheduleLess)
  {
    var s := Schedule(today, tasks, text, prefs);
    if s.Ok? {
      ScheduleOrder();
      StableSortSorted(s.value, ScheduleLess);
      StableSortPermutes(s.value, ScheduleLess);
      forall k { StableSortKeepsTieOrder(s.value, k, ScheduleLess); }
    }
  }

  /** A schedule is the range's weekly meetings followed by more entries. */
  lemma ScheduleHoldsMeetings(today: int, tasks: seq<Task>, text: string, prefs: Preferences)
    requires ValidOrdinal(today) && Schedule(today, tasks, text, prefs).Ok?
    ensures TimeRange(today, text).Ok?
    ensures var (start, end) := TimeRange(today, text).value;
      && ValidOrdinal(start) && ValidOrdinal(end) && ValidDates(BusinessDays(start, end))
      && WeeklyMeetings(BusinessDays(start, end), prefs.weeklyMeetings).Ok?
      && multiset(WeeklyMeetings(BusinessDays(start, end), prefs.weeklyMeetings).value)
           <= multiset(Schedule(today, tasks, text, prefs).value)
  {
    TimeRangeValid(today, text);
    var (start, end) := TimeRange(today, text).value;
    WorkingDatesValid(start, end);
    var working := BusinessDays(start, end);
    assert GetBusinessDays(start, end) == Ok(working);
    var meetings := WeeklyMeetings(working, prefs.weeklyMeetings);
    MeetingTimesParse(working, prefs.weeklyMeetings);
    var more := Placements(tasks, working, meetings.value, prefs.distributionMethod);
    assert Schedule(today, tasks, text, prefs) == Ok(meetings.value + more.value);
  }

  /**
   * Every weekly meeting lands in the result on every business day of the range that falls on
   * its day of the week.
   */
  lemma DistributeMeetings(today: int, tasks: seq<Task>, text: string, prefs: Preferences)
    requires ValidOrdinal(today) && Distribute(today, tasks, text, prefs).Ok?
    ensures TimeRange(today, text).Ok?
    ensures var (start, end) := TimeRange(today, text).value;
      forall d, m | ValidOrdinal(d) && start <= d <= end && Weekday(d) < 5 && m in prefs.weeklyMeetings &&
          Weekday(d) + 1 == m.dayOfWeek && ParseHM(m.time).Some? ::
        MeetingTask(d, m, ParseHM(m.time).value) in Distribute(today, tasks, text, prefs).value
  {
    ScheduleHoldsMeetings(today, tasks, text, prefs);
    DistributeSorted(today, tasks, text, prefs);
    var (start, end) := TimeRange(today, text).value;
    var working := BusinessDays(start, end);
    BusinessDaysExactly(start, end);
    WeeklyMeetingsEntries(working, prefs.weeklyMeetings);
    var ms := WeeklyMeetings(working, prefs.weeklyMeetings).value;
    var r := Distribute(today, tasks, text, prefs).value;
    forall d, m | ValidOrdinal(d) && start <= d <= end && Weekday(d) < 5 && m in prefs.weeklyMeetings &&
        Weekday(d) + 1 == m.dayOfWeek && ParseHM(m.time).Some?
      ensures MeetingTask(d, m, ParseHM(m.time).value) in r
    {
      var e := MeetingTask(d, m, ParseHM(m.time).value);
      assert e in ms;
      assert e in multiset(r);
    }
  }

  /**
   * Spreading never fails once the range and the meeting times do not: with readable meeting
   * times and a range that does not end on 9999-12-31, `spread` always yields a schedule.
   */
  lemma DistributeSpreadSucceeds(today: int, tasks: seq<Task>, text: string, prefs: Preferences)
    requires ValidOrdinal(today) && prefs.distributionMethod == "spread"
    requires TimeRange(today, text).Ok? && TimeRange(today, text).value.1 < MaxOrdinal
    requires forall m :: m in prefs.weeklyMeetings ==> ParseHM(m.time).Some?
    ensures Distribute(today, tasks, text, prefs).Ok?
  {
    TimeRangeValid(today, text);
    var (start, end) := TimeRange(today, text).value;
    WorkingDatesValid(start, end);
    WeeklyMeetingsErrors(BusinessDays(start, end), prefs.weeklyMeetings);
  }
}
