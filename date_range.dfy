/**
 * `DateRangeProcessor` (date_processor.py): natural-language time ranges such as
 * "last 2 weeks" resolved against today's date, and the business days (Monday to
 * Friday) of a range.
 *
 * Dates are day numbers (see `Calendar`); "today" is a parameter. Where Python's date
 * arithmetic raises (`OverflowError` or `ValueError` at either end of the calendar),
 * the result is an `Err` carrying the exception's message.
 */
module DateRange {
  import opened Results
  import opened Text
  import opened Calendar
  import opened Pattern

  /** The handler a pattern dispatches to. */
  datatype Handler = LastDays | LastWeeks | LastMonths | LastWeek | LastMonth | ThisWeek | ThisMonth | Yesterday | Today

  /** The recognised phrases, in the order they are tried (`s?` suffixes dropped, see `Pattern`). */
  const Patterns: seq<(seq<Piece>, Handler)> := [
    ([Lit("last"), Blanks, Number, Blanks, Lit("day")], LastDays),
    ([Lit("last"), Blanks, Number, Blanks, Lit("week")], LastWeeks),
    ([Lit("last"), Blanks, Number, Blanks, Lit("month")], LastMonths),
    ([Lit("last"), Blanks, Lit("week")], LastWeek),
    ([Lit("last"), Blanks, Lit("month")], LastMonth),
    ([Lit("this"), Blanks, Lit("week")], ThisWeek),
    ([Lit("this"), Blanks, Lit("month")], ThisMonth),
    ([Lit("yesterday")], Yesterday),
    ([Lit("today")], Today),
    ([Lit("past"), Blanks, Number, Blanks, Lit("day")], LastDays),
    ([Lit("previous"), Blanks, Number, Blanks, Lit("week")], LastWeeks)
  ]

  /** A range `(start, end)` of day numbers, both ends included. */
  type Span = (int, int)

  /** `(today - timedelta(days=n), today)`, the shape of every "last N …" phrase. */
  function LastSpan(today: int, n: nat): (r: Result<Span, string>)
    requires ValidOrdinal(today)
    ensures r.Ok? <==> n < today
    ensures r.Ok? ==> r.value == (today - n, today)
  {
    var d := Timedelta(n);
    if d.Err? then Err(d.error)
    else
      var start := AddDays(today, -d.value);
      if start.Err? then Err(start.error) else Ok((start.value, today))
  }

  /** `_parse_last_days`. */
  function LastDaysRange(today: int, n: nat): Result<Span, string>
    requires ValidOrdinal(today)
  {
    LastSpan(today, n)
  }

  /** `_parse_last_weeks`: `timedelta(weeks=n)` is `7 * n` days. */
  function LastWeeksRange(today: int, n: nat): Result<Span, string>
    requires ValidOrdinal(today)
  {
    LastSpan(today, 7 * n)
  }

  /** The month `n` months before month `month` of year `year`, as (year, month). */
  function MonthsBack(year: int, month: int, n: nat): (r: (int, int))
    requires 1 <= month <= 12
    ensures 1 <= r.1 <= 12
    ensures r.0 * 12 + r.1 == year * 12 + month - n
  {
    var total := year * 12 + (month - 1) - n;
    (total / 12, total % 12 + 1)
  }

  /** A year and month in 1..12 that are `n` months back are the ones `MonthsBack` gives. */
  lemma MonthsBackUnique(year0: int, month0: int, n: nat, year: int, month: int)
    requires 1 <= month0 <= 12 && 1 <= month <= 12
    requires year * 12 + month == year0 * 12 + month0 - n
    ensures MonthsBack(year0, month0, n) == (year, month)
  {
    var total := year0 * 12 + (month0 - 1) - n;
    assert total == year * 12 + (month - 1);
    assert total / 12 == year;
  }

  /** `_parse_last_months`: from day 1 of the month `n` months back, to today. */
  function LastMonthsRange(today: int, n: nat): (r: Result<Span, string>)
    requires ValidOrdinal(today)
  {
    var c := ToCivil(today);
    var (year, month) := MonthsBack(c.year, c.month, n);
    if year < 1 then Err("year " + PadInt(year, 0) + " is out of range")
    else Ok((FromCivil(year, month, 1), today))
  }

  /** `_parse_last_months` as Python runs it: add 12 months and drop a year until the month is positive. */
  method ParseLastMonths(today: int, n: nat) returns (r: Result<Span, string>)
    requires ValidOrdinal(today)
    ensures r == LastMonthsRange(today, n)
  {
    var c := ToCivil(today);
    var year := c.year;
    var month := c.month - n;
    while month <= 0
      invariant month <= 12
      invariant year * 12 + month == c.year * 12 + c.month - n
      decreases -month
    {
      month := month + 12;
      year := year - 1;
    }
    MonthsBackUnique(c.year, c.month, n, year, month);
    if year < 1 {
      return Err("year " + PadInt(year, 0) + " is out of range");
    }
    return Ok((FromCivil(year, month, 1), today));
  }

  /** `_parse_this_week`: Monday to Sunday of the current week. */
  function ThisWeekRange(today: int): Result<Span, string>
    requires ValidOrdinal(today)
  {
    var start := today - Weekday(today);
    var end := AddDays(start, 6);
    if end.Err? then Err(end.error) else Ok((start, end.value))
  }

  /** `_parse_this_month`: day 1 to the last day of the current month. */
  function ThisMonthRange(today: int): Span
    requires ValidOrdinal(today)
  {
    var c := ToCivil(today);
    (FromCivil(c.year, c.month, 1), FromCivil(c.year, c.month, DaysInMonth(c.year, c.month)))
  }

  /** `_parse_yesterday`: the day before today, which 0001-01-01 does not have. */
  function YesterdayRange(today: int): (r: Result<Span, string>)
    requires ValidOrdinal(today)
    ensures r.Ok? <==> today > 1
    ensures r.Ok? ==> r.value == (today - 1, today - 1)
  {
    var y := AddDays(today, -1);
    if y.Err? then Err(y.error) else Ok((y.value, y.value))
  }

  /** Runs the handler of a matched pattern on its captured number, if it has one. */
  function Apply(today: int, h: Handler, group: Option<string>): Result<Span, string>
    requires ValidOrdinal(today)
    requires group.Some? ==> AllDigits(group.value)
  {
    var n: nat := if group.Some? then DigitsValue(group.value) else 0;
    match h
    case LastDays => LastDaysRange(today, n)
    case LastWeeks => LastWeeksRange(today, n)
    case LastMonths => LastMonthsRange(today, n)
    case LastWeek => LastWeeksRange(today, 1)
    case LastMonth => LastMonthsRange(today, 1)
    case ThisWeek => ThisWeekRange(today)
    case ThisMonth => Ok(ThisMonthRange(today))
    case Yesterday => YesterdayRange(today)
    case Today => Ok((today, today))
  }

  /** The first pattern from position `k` of `table` that `re.search` finds in `t`, with its capture. */
  function FirstMatchIn<H>(t: string, table: seq<(seq<Piece>, H)>, k: nat): (r: Option<(nat, Found)>)
    requires k <= |table|
    ensures r.Some? ==> k <= r.value.0 < |table| && Search(t, table[r.value.0].0) == Some(r.value.1)
    decreases |table| - k
  {
    if k == |table| then None
    else
      var m := Search(t, table[k].0);
      if m.Some? then Some((k, m.value)) else FirstMatchIn(t, table, k + 1)
  }

  /** No pattern before the one `FirstMatchIn` picks is found, and none at all when it picks none. */
  lemma {:induction false} FirstMatchInIsFirst<H>(t: string, table: seq<(seq<Piece>, H)>, k: nat)
    requires k <= |table|
    ensures var r := FirstMatchIn(t, table, k);
      && (r.Some? ==> forall j :: k <= j < r.value.0 ==> Search(t, table[j].0).None?)
      && (r.None? ==> forall j :: k <= j < |table| ==> Search(t, table[j].0).None?)
    decreases |table| - k
  {
    if k < |table| && Search(t, table[k].0).None? {
      FirstMatchInIsFirst(t, table, k + 1);
    }
  }

  /** The first pattern of the table from position `k` on that `re.search` finds in `t`. */
  function FirstMatch(t: string, k: nat): (r: Option<(nat, Found)>)
    requires k <= |Patterns|
    ensures r.Some? ==> k <= r.value.0 < |Patterns| && Search(t, Patterns[r.value.0].0) == Some(r.value.1)
  {
    FirstMatchIn(t, Patterns, k)
  }

  /** No pattern before the one `FirstMatch` picks is found, and none at all when it picks none. */
  lemma FirstMatchIsFirst(t: string, k: nat)
    requires k <= |Patterns|
    ensures var r := FirstMatch(t, k);
      && (r.Some? ==> forall j :: k <= j < r.value.0 ==> Search(t, Patterns[j].0).None?)
      && (r.None? ==> forall j :: k <= j < |Patterns| ==> Search(t, Patterns[j].0).None?)
  {
    FirstMatchInIsFirst(t, Patterns, k);
  }

  /** The text the patterns are searched in: `time_range_text.lower().strip()`. */
  function Normalize(text: string): string {
    Strip(Lower(text))
  }

  /** `parse_time_range`: the first pattern that matches decides; text matching none means the last 2 weeks. */
  function TimeRange(today: int, text: string): Result<Span, string>
    requires ValidOrdinal(today)
  {
    var w := FirstMatch(Normalize(text), 0);
    if w.None? then LastWeeksRange(today, 2)
    else Apply(today, Patterns[w.value.0].1, w.value.1.capture.group)
  }

  /** `parse_time_range` as Python runs it: the patterns in order, returning on the first hit. */
  method ParseTimeRange(today: int, text: string) returns (r: Result<Span, string>)
    requires ValidOrdinal(today)
    ensures r == TimeRange(today, text)
  {
    var t := Normalize(text);
    for k := 0 to |Patterns|
      invariant FirstMatch(t, 0) == FirstMatch(t, k)
    {
      var m := Search(t, Patterns[k].0);
      if m.Some? {
        r := Dispatch(today, Patterns[k].1, m.value.capture.group);
        return;
      }
    }
    r := LastWeeksRange(today, 2);
  }

  /** The handler of the winning pattern, called with its captured number. */
  method Dispatch(today: int, h: Handler, g: Option<string>) returns (r: Result<Span, string>)
    requires ValidOrdinal(today)
    requires g.Some? ==> AllDigits(g.value)
    ensures r == Apply(today, h, g)
  {
    if h == LastMonths {
      r := ParseLastMonths(today, if g.Some? then DigitsValue(g.value) else 0);
    } else if h == LastMonth {
      r := ParseLastMonths(today, 1);
    } else {
      r := Apply(today, h, g);
    }
  }

  /** The handler of the pattern that wins for `text`, if any pattern matches. */
  function Winner(text: string): Option<Handler> {
    var w := FirstMatch(Normalize(text), 0);
    if w.None? then None else Some(Patterns[w.value.0].1)
  }

  /** Every pattern of the table is one whose greedy matching is exact. */
  lemma PatternsSeparated(k: nat)
    requires k < |Patterns|
    ensures Separated(Patterns[k].0)
  {
  }

  lemma NoSearchNoRegexMatch(t: string, p: nat, pat: seq<Piece>)
    requires p <= |t| && Separated(pat) && Search(t, pat).None?
    ensures !Matches(t, p, pat)
  {
    GreedyMatchIsComplete(t, p, pat);
  }

  /**
   * Dispatch follows the regular expressions themselves: the winning pattern matches
   * somewhere in the normalised text, and no earlier pattern matches anywhere in it.
   */
  lemma WinnerIsFirstRegexMatch(text: string)
    ensures var t := Normalize(text); var w := FirstMatch(t, 0);
      && (w.Some? ==> Matches(t, w.value.1.start, Patterns[w.value.0].0))
      && (w.Some? ==> forall j, p :: 0 <= j < w.value.0 && 0 <= p <= |t| ==> !Matches(t, p, Patterns[j].0))
      && (w.None? ==> forall j, p :: 0 <= j < |Patterns| && 0 <= p <= |t| ==> !Matches(t, p, Patterns[j].0))
  {
    var t := Normalize(text);
    FirstMatchIsFirst(t, 0);
    forall j, p | 0 <= j < |Patterns| && 0 <= p <= |t| && Search(t, Patterns[j].0).None?
      ensures !Matches(t, p, Patterns[j].0)
    {
      PatternsSeparated(j);
      NoSearchNoRegexMatch(t, p, Patterns[j].0);
    }
    var w := FirstMatch(t, 0);
    if w.Some? {
      PatternsSeparated(w.value.0);
      GreedyMatchIsComplete(t, w.value.1.start, Patterns[w.value.0].0);
    }
  }

  /** Text that no pattern recognises means the last two weeks: fourteen days back to today. */
  lemma FallbackIsTwoWeeks(today: int, text: string)
    requires ValidOrdinal(today) && Winner(text).None?
    ensures TimeRange(today, text) == LastSpan(today, 14)
  {
  }

  /** Every "last …", "past …" and "previous …" phrase, `today`, and the fallback end today. */
  lemma EndsToday(today: int, text: string)
    requires ValidOrdinal(today) && TimeRange(today, text).Ok?
    requires Winner(text) !in {Some(ThisWeek), Some(ThisMonth), Some(Yesterday)}
    ensures TimeRange(today, text).value.1 == today
  {
    var w := FirstMatch(Normalize(text), 0);
    if w.Some? {
      var h, g := Patterns[w.value.0].1, w.value.1.capture.group;
      assert TimeRange(today, text) == Apply(today, h, g);
      assert h != ThisWeek && h != ThisMonth && h != Yesterday;
    }
  }

  /** `yesterday` is the single day before today. */
  lemma YesterdayIsOneDay(today: int, text: string)
    requires ValidOrdinal(today) && Winner(text) == Some(Yesterday)
    ensures TimeRange(today, text).Ok? <==> today > 1
    ensures TimeRange(today, text).Ok? ==> TimeRange(today, text).value == (today - 1, today - 1)
  {
    var w := FirstMatch(Normalize(text), 0);
    assert TimeRange(today, text) == YesterdayRange(today) by {
      assert Patterns[w.value.0].1 == Yesterday;
    }
  }

  /** `today` is the single day today. */
  lemma TodayIsOneDay(today: int, text: string)
    requires ValidOrdinal(today) && Winner(text) == Some(Today)
    ensures TimeRange(today, text) == Ok((today, today))
  {
    var w := FirstMatch(Normalize(text), 0);
    assert Patterns[w.value.0].1 == Today;
  }

  /** "Last N months" fails exactly when the month N months back falls before year 1. */
  lemma LastMonthsFails(today: int, n: nat)
    requires ValidOrdinal(today)
    ensures var c := ToCivil(today);
      LastMonthsRange(today, n).Err? <==> c.year * 12 + c.month - n <= 12
  {
    var c := ToCivil(today);
    var (year, month) := MonthsBack(c.year, c.month, n);
    assert year * 12 + month == c.year * 12 + c.month - n;
  }

  /** "Last N months" starts on day 1 of the month N months back, which is never after today. */
  lemma LastMonthsStart(today: int, n: nat)
    requires ValidOrdinal(today) && LastMonthsRange(today, n).Ok?
    ensures var (start, end) := LastMonthsRange(today, n).value;
      var c, s := ToCivil(today), ToCivil(start);
      && end == today && start <= today
      && s.day == 1 && s.year * 12 + s.month == c.year * 12 + c.month - n
  {
    var c := ToCivil(today);
    var (year, month) := MonthsBack(c.year, c.month, n);
    assert 1 <= year <= c.year;
    ToCivilFromCivil(year, month, 1);
    MonthStartNotAfter(year, month, c);
  }

  /** Day 1 of a month no later than `c`'s month is no later than `c`. */
  lemma MonthStartNotAfter(year: int, month: int, c: Civil)
    requires ValidCivil(year, month, 1) && ValidCivil(c.year, c.month, c.day)
    requires year * 12 + month <= c.year * 12 + c.month
    ensures FromCivil(year, month, 1) <= FromCivil(c.year, c.month, c.day)
  {
    if year * 12 + month < c.year * 12 + c.month {
      assert year < c.year || (year == c.year && month < c.month);
      CivilOrder(Civil(year, month, 1), c);
    } else if c.day > 1 {
      CivilOrder(Civil(year, month, 1), c);
    }
  }

  /** "This week" runs from the Monday on or before today to the Sunday after it. */
  lemma ThisWeekIsMondayToSunday(today: int)
    requires ValidOrdinal(today)
    ensures ThisWeekRange(today).Err? <==> today - Weekday(today) + 6 > MaxOrdinal
    ensures ThisWeekRange(today).Ok? ==>
      var (start, end) := ThisWeekRange(today).value;
      Weekday(start) == 0 && end == start + 6 && start <= today <= end
  {
    MondayOfWeek(today, 0);
  }

  /** "This month" runs from day 1 to the last day of today's month, today included. */
  lemma ThisMonthIsWholeMonth(today: int)
    requires ValidOrdinal(today)
    ensures var (start, end) := ThisMonthRange(today); var c := ToCivil(today);
      && ToCivil(start) == Civil(c.year, c.month, 1)
      && ToCivil(end) == Civil(c.year, c.month, DaysInMonth(c.year, c.month))
      && start <= today <= end
      && end - start + 1 == DaysInMonth(c.year, c.month)
  {
    var c := ToCivil(today);
    ToCivilFromCivil(c.year, c.month, 1);
    ToCivilFromCivil(c.year, c.month, DaysInMonth(c.year, c.month));
  }

  /** Every range a handler returns is a pair of real dates, the start never after the end. */
  lemma ApplyValid(today: int, h: Handler, group: Option<string>)
    requires ValidOrdinal(today) && (group.Some? ==> AllDigits(group.value))
    requires Apply(today, h, group).Ok?
    ensures var (start, end) := Apply(today, h, group).value;
      ValidOrdinal(start) && ValidOrdinal(end) && start <= end
  {
    var n: nat := if group.Some? then DigitsValue(group.value) else 0;
    match h
    case LastMonths => LastMonthsStart(today, n);
    case LastMonth => LastMonthsStart(today, 1);
    case ThisWeek => ThisWeekIsMondayToSunday(today);
    case ThisMonth => ThisMonthIsWholeMonth(today);
    case _ =>
  }

  /** Every range `parse_time_range` returns is a pair of real dates, the start never after the end. */
  lemma TimeRangeValid(today: int, text: string)
    requires ValidOrdinal(today) && TimeRange(today, text).Ok?
    ensures var (start, end) := TimeRange(today, text).value;
      ValidOrdinal(start) && ValidOrdinal(end) && start <= end
  {
    var w := FirstMatch(Normalize(text), 0);
    if w.Some? {
      ApplyValid(today, Patterns[w.value.0].1, w.value.1.capture.group);
    }
  }

  /** The business days in `[start, end]`, in order (specification of `get_business_days`). */
  function BusinessDays(start: int, end: int): seq<int>
    decreases end - start
  {
    if start > end then []
    else BusinessDays(start, end - 1) + (if Weekday(end) < 5 then [end] else [])
  }

  /**
   * `get_business_days` as a result: stepping past 9999-12-31 raises `OverflowError`,
   * which happens exactly when the range is non-empty and ends on that day.
   */
  function GetBusinessDays(start: int, end: int): Result<seq<int>, string>
    requires ValidOrdinal(start) && ValidOrdinal(end)
  {
    if start <= end && end == MaxOrdinal then Err("date value out of range")
    else Ok(BusinessDays(start, end))
  }

  /** `get_business_days` as Python runs it: walk the days, keeping Monday to Friday. */
  method BusinessDaysLoop(start: int, end: int) returns (r: Result<seq<int>, string>)
    requires ValidOrdinal(start) && ValidOrdinal(end)
    ensures r == GetBusinessDays(start, end)
  {
    var days: seq<int> := [];
    var current := start;
    while current <= end
      invariant start <= current <= end + 1 || current == start
      invariant current <= MaxOrdinal
      invariant days == BusinessDays(start, current - 1)
      decreases end - current
    {
      if Weekday(current) < 5 {
        days := days + [current];
      }
      if current == MaxOrdinal {
        return Err("date value out of range");
      }
      current := current + 1;
    }
    return Ok(days);
  }

  predicate StrictlyAscending(s: seq<int>) {
    forall i, j :: 0 <= i < j < |s| ==> s[i] < s[j]
  }

  lemma AscendingAppend(s: seq<int>, x: int)
    requires StrictlyAscending(s) && forall y :: y in s ==> y < x
    ensures StrictlyAscending(s + [x])
  {
    var t := s + [x];
    forall i, j | 0 <= i < j < |t| ensures t[i] < t[j] {
      if j == |s| {
        assert t[i] in s;
      }
    }
  }

  /** The business days of a range are exactly its Monday-to-Friday dates, each once, in order. */
  lemma {:induction false} BusinessDaysExactly(start: int, end: int)
    ensures forall d :: d in BusinessDays(start, end) <==> start <= d <= end && Weekday(d) < 5
    ensures StrictlyAscending(BusinessDays(start, end))
    decreases end - start
  {
    if start <= end {
      BusinessDaysExactly(start, end - 1);
      if Weekday(end) < 5 {
        AscendingAppend(BusinessDays(start, end - 1), end);
      }
    }
  }

  /** An empty range has no business days. */
  lemma NoBusinessDaysBackwards(start: int, end: int)
    requires ValidOrdinal(start) && ValidOrdinal(end) && start > end
    ensures GetBusinessDays(start, end) == Ok([])
  {
  }

  /** A Monday-to-Sunday week holds exactly its five weekdays. */
  lemma WeekHasFiveBusinessDays(monday: int)
    requires Weekday(monday) == 0
    ensures BusinessDays(monday, monday + 6) == [monday, monday + 1, monday + 2, monday + 3, monday + 4]
  {
    assert BusinessDays(monday, monday) == [monday];
    assert BusinessDays(monday, monday + 1) == [monday, monday + 1];
    assert BusinessDays(monday, monday + 2) == [monday, monday + 1, monday + 2];
    assert BusinessDays(monday, monday + 3) == [monday, monday + 1, monday + 2, monday + 3];
    assert BusinessDays(monday, monday + 4) == [monday, monday + 1, monday + 2, monday + 3, monday + 4];
    assert BusinessDays(monday, monday + 5) == BusinessDays(monday, monday + 4);
  }

  /** `[day for day in business_days if day not in existing]`. */
  function Missing(business: seq<int>, existing: set<int>): (r: seq<int>) {
    if business == [] then []
    else
      var last := business[|business| - 1];
      Missing(business[..|business| - 1], existing) + (if last in existing then [] else [last])
  }

  /** The missing days are the business days not already filled, in their original order. */
  lemma {:induction false} MissingExactly(business: seq<int>, existing: set<int>)
    requires StrictlyAscending(business)
    ensures forall d :: d in Missing(business, existing) <==> d in business && d !in existing
    ensures StrictlyAscending(Missing(business, existing))
  {
    if business != [] {
      var front := business[..|business| - 1];
      assert StrictlyAscending(front);
      MissingExactly(front, existing);
      assert business == front + [business[|business| - 1]];
      if business[|business| - 1] !in existing {
        AscendingAppend(Missing(front, existing), business[|business| - 1]);
      }
    }
  }

  /** `get_missing_work_days`. */
  function GetMissingWorkDays(start: int, end: int, existing: seq<int>): Result<seq<int>, string>
    requires ValidOrdinal(start) && ValidOrdinal(end)
  {
    var b := GetBusinessDays(start, end);
    if b.Err? then Err(b.error) else Ok(Missing(b.value, set d | d in existing))
  }

  /** `get_missing_work_days` gives exactly the unfilled weekdays of the range, in ascending order. */
  lemma MissingWorkDays(start: int, end: int, existing: seq<int>)
    requires ValidOrdinal(start) && ValidOrdinal(end)
    requires GetMissingWorkDays(start, end, existing).Ok?
    ensures var r := GetMissingWorkDays(start, end, existing).value;
      && StrictlyAscending(r)
      && forall d :: d in r <==> start <= d <= end && Weekday(d) < 5 && d !in existing
  {
    BusinessDaysExactly(start, end);
    MissingExactly(BusinessDays(start, end), set d | d in existing);
  }

  /** `calculate_work_days_count`. */
  function WorkDaysCount(start: int, end: int): Result<int, string>
    requires ValidOrdinal(start) && ValidOrdinal(end)
  {
    var b := GetBusinessDays(start, end);
    if b.Err? then Err(b.error) else Ok(|b.value|)
  }

  /** A range has at most as many work days as days. */
  lemma {:induction false} WorkDaysBound(start: int, end: int)
    requires start <= end + 1
    ensures |BusinessDays(start, end)| <= end - start + 1
    decreases end - start
  {
    if start <= end {
      WorkDaysBound(start, end - 1);
    }
  }

  /** `format_date_range`: one date, or `A to B`. */
  function FormatDateRange(start: int, end: int): string
    requires ValidOrdinal(start) && ValidOrdinal(end)
  {
    if start == end then FormatDate(start) else FormatDate(start) + " to " + FormatDate(end)
  }

  /** A range prints as a single date exactly when it is a single day. */
  lemma FormatDateRangeSingle(start: int, end: int)
    requires ValidOrdinal(start) && ValidOrdinal(end)
    ensures |FormatDateRange(start, end)| == 10 <==> start == end
  {
  }

  /** A range of several days prints both ends, each reading back as its date. */
  lemma FormatDateRangeEnds(start: int, end: int)
    requires ValidOrdinal(start) && ValidOrdinal(end) && start != end
    ensures var s := FormatDateRange(start, end);
      |s| == 24 && ParseDate(s[..10]) == Some(start) && s[10..14] == " to " && ParseDate(s[14..]) == Some(end)
  {
    ParseFormatDate(start);
    ParseFormatDate(end);
    RangeTextParts(FormatDate(start), FormatDate(end));
  }

  /** Two ten-character dates joined by " to " split back into the two dates. */
  lemma RangeTextParts(a: string, b: string)
    requires |a| == 10 && |b| == 10
    ensures var s := a + " to " + b; |s| == 24 && s[..10] == a && s[10..14] == " to " && s[14..] == b
  {
    var s := a + " to " + b;
    assert s[..10] == a && s[10..14] == " to " && s[14..] == b;
  }
}
