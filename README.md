# WorkFlow-AI-Journal, modelled in Dafny

WorkFlow-AI-Journal fills gaps in a Clockify timesheet. It reads a phrase such as "last 2 weeks", finds the business days that have no time entry, asks Gemini to turn the GitHub commits of that period into a CSV task list, cleans and parses that list, and schedules the tasks on the missing days around weekly meetings. This project models the deterministic core of that pipeline and proves what it promises:

- `date_range.dfy` (module `DateRange`): the date processor. It models the first-match dispatch over the time-range patterns, each `_parse_*` handler, business days, missing days, the work-day count and the printed range.
- `calendar.dfy` (module `Calendar`): the parts of Python's `datetime` and `calendar` the core relies on. Dates are proleptic Gregorian ordinals (0001-01-01 is day 1); `weekday`, `timedelta` with its range errors, `strftime`/`strptime` for `%Y-%m-%d` and `%H:%M`, and `monthrange` are all modelled.
- `pattern.dfy` (module `Pattern`): the regular expressions of the date processor and the version scorer (`\s+`, `\d+`, literal text, one capture), with `re.search`'s leftmost-match rule. A lemma shows that the greedy matcher used is exact for these expressions.
- `scheduler.dfy` (module `Scheduler`): `distribute_tasks`, meaning weekly meetings by Monday-anchored week, either packing tasks into the days or clamping exact times into business hours, and the final sort. Time is integer minutes.
- `workflow.dfy` (module `Workflow`): the CSV side of the coordinator. It covers `_parse_generated_tasks`, `_clean_generated_tasks` and `_generate_scheduled_meetings`, plus the `sorted(set(...))` of `_get_existing_clockify_data`.
- `coordinator.dfy` (module `Coordinator`): `execute_workflow`'s seven steps with their early exits, `_generate_tasks_with_ai`, and the counters of `import_tasks_to_clockify`.
- `gemini.dfy` (module `Gemini`): `gemini_api.py`. It covers the model score and ranking, the fallback order, the task-list prompt (defaults, at most 20 commits) and the result mapping of `generate_task_list`.
- `version_scoring.dfy` (module `VersionScoring`): the version-aware scorer of `test_dynamic_selection.py`, with its table of expected scores proved row by row.
- `select_repo.dfy` (module `SelectRepo`): the repository menu. It covers the `(owner, name)` sort, the permission label, the menu answer and the replace-or-append of the `DEFAULT_GITHUB_REPO=` line.
- `text.dfy` (modules `Results` and `Text`) and `sorting.dfy` (module `Sorting`): the Python string operations used (`strip`, `lower`, `split`, `join`, `int`, `in`) and one stable insertion sort. The sort is given as a function and as an in-place array method proved equal to it; it stands for Python's stable `sorted`/`list.sort`.

Collaborators outside the core are parameters. `date.today()` is the ordinal `today`. Clockify, GitHub, the scheduling prompts and Gemini are given as the values they return. `execute_workflow` receives them as a record of function values; `Coordinator.ModelServices` fills that record with this model's own definitions.

## Model

| member | source | states |
|---|---|---|
| DateRange.LastSpan | date_processor.py:56-68 | a span of N days back ends today and starts N days earlier; it fails exactly when that start falls before 0001-01-01 |
| DateRange.MonthsBack | date_processor.py:76-81 | the month reached by the wrap-around loop lies in 1..12 and is exactly N months before today's month |
| DateRange.MonthsBackUnique | date_processor.py:76-81 | the month the loop reaches is the only one in 1..12 that is N months back |
| DateRange.ParseLastMonths | date_processor.py:70-84 | the imperative loop (add 12, drop a year, while month <= 0) gives the range `LastMonthsRange` defines |
| DateRange.YesterdayRange | date_processor.py:105-108 | yesterday is the one-day range before today, and fails only on 0001-01-01 |
| DateRange.FirstMatchIn | date_processor.py:45-47 | the pattern picked is one `re.search` finds in the text, together with its capture |
| DateRange.FirstMatchInIsFirst | date_processor.py:45-51 | no pattern before the one picked is found in the text; none is found when none is picked |
| DateRange.FirstMatch | date_processor.py:19-31 | the same first-match rule over the fixed pattern table, in its order |
| DateRange.FirstMatchIsFirst | date_processor.py:19-51 | the table's first hit is the earliest pattern that `re.search` finds |
| DateRange.ParseTimeRange | date_processor.py:33-54 | the loop over the patterns (lower-cased and stripped text, return on the first hit, else the fallback) gives `TimeRange` |
| DateRange.Dispatch | date_processor.py:48-51 | the winning handler is called with its capture when the pattern has one, without it otherwise |
| DateRange.PatternsSeparated | date_processor.py:19-31 | every pattern of the table is one for which greedy matching is exact |
| DateRange.WinnerIsFirstRegexMatch | date_processor.py:43-51 | the winning pattern matches the normalised text as a regular expression, and no earlier pattern matches anywhere in it |
| DateRange.FallbackIsTwoWeeks | date_processor.py:114-117 | text that no pattern recognises gives the last two weeks (14 days back to today) |
| DateRange.EndsToday | date_processor.py:56-117 | every "last", "past" and "previous" phrase, "today" and the fallback end today |
| DateRange.YesterdayIsOneDay | date_processor.py:105-108 | "yesterday" is the single day before today, and fails only on the first representable day |
| DateRange.TodayIsOneDay | date_processor.py:110-112 | "today" is the single day today |
| DateRange.LastMonthsFails | date_processor.py:77-83 | "last N months" fails exactly when the month N months back falls before year 1 |
| DateRange.LastMonthsStart | date_processor.py:70-84 | "last N months" starts on day 1 of the month N months back; that start is never after today |
| DateRange.ThisWeekIsMondayToSunday | date_processor.py:86-92 | "this week" runs from the Monday on or before today to the Sunday after it, and fails only past 9999-12-31 |
| DateRange.ThisMonthIsWholeMonth | date_processor.py:94-103 | "this month" runs from day 1 to the last day of today's month and contains today |
| DateRange.ApplyValid | date_processor.py:56-117 | every range a handler returns is two real dates with the start not after the end |
| DateRange.TimeRangeValid | date_processor.py:33-54 | every range `parse_time_range` returns is two real dates with the start not after the end |
| DateRange.BusinessDaysLoop | date_processor.py:119-139 | the walk from start to end that keeps Monday to Friday gives `GetBusinessDays`; it fails where Python's date overflows |
| DateRange.BusinessDaysExactly | date_processor.py:119-139 | the business days are exactly the Monday-to-Friday dates of the range, each once, in ascending order |
| DateRange.NoBusinessDaysBackwards | date_processor.py:133 | a range whose start is after its end has no business days |
| DateRange.WeekHasFiveBusinessDays | date_processor.py:119-139 | a Monday-to-Sunday week holds exactly its five weekdays |
| DateRange.MissingExactly | date_processor.py:155-157 | the filter keeps exactly the business days not already filled, in their order |
| DateRange.MissingWorkDays | date_processor.py:141-158 | the missing days are exactly the weekdays of the range without an entry, in ascending order |
| DateRange.WorkDaysBound | date_processor.py:167-169 | a range has at most as many work days as days |
| DateRange.FormatDateRangeSingle | date_processor.py:160-165 | the range prints as one date exactly when it is a single day |
| DateRange.FormatDateRangeEnds | date_processor.py:164-165 | a range of several days prints both ends, joined by " to ", and each end reads back as its date |
| Calendar.DaysInMonth | date_processor.py:100 | `monthrange` gives 28 to 31 days, and 29 exactly for February of a leap year |
| Calendar.MonthsTileYear | date_processor.py:97-101 | the months of a year follow each other without gaps and fill the year |
| Calendar.DaysBeforeNextYear | date_processor.py:83 | the closed-form day count before a year adds each year's own length |
| Calendar.FromCivil | date_processor.py:83-101 | `date(y, m, d)` of a valid civil date is a day in 0001-01-01..9999-12-31 |
| Calendar.ToCivil | date_processor.py:76-97 | the year, month and day of a day number form a valid date that maps back to that day |
| Calendar.CivilOrder | date_processor.py:133 | later civil dates have larger day numbers, so date comparison is day-number comparison |
| Calendar.ToCivilFromCivil | date_processor.py:83-97 | `fromordinal(toordinal(date(y, m, d)))` is `date(y, m, d)` |
| Calendar.Weekday | date_processor.py:135 | `weekday()` lies in 0..6 |
| Calendar.WeekdayNext | date_processor.py:135-137 | the weekday moves on by one each day, wrapping from Sunday to Monday |
| Calendar.MondayOfWeek | date_processor.py:89-91 | the day `weekday()` days back is a Monday; k days after it is weekday k |
| Calendar.AddDays | date_processor.py:137 | adding a timedelta succeeds exactly inside 0001-01-01..9999-12-31, and otherwise fails with Python's "date value out of range" |
| Calendar.Timedelta | date_processor.py:60-67 | `timedelta(days=k)` exists exactly for |k| up to 999999999 days |
| Calendar.FormatDate | date_processor.py:163 | `strftime('%Y-%m-%d')` prints ten characters |
| Calendar.FormatDateLayout | date_processor.py:163 | a printed date is ten characters, all digits or dashes, with a digit at each end |
| Calendar.ParseDate | task_scheduler.py:290 | `strptime(s, '%Y-%m-%d')` yields only real dates |
| Calendar.ParseFormatDate | task_scheduler.py:290 | reading back a printed date gives the same date |
| Calendar.FormatDateInjective | task_scheduler.py:177-180 | two dates that print the same are the same date |
| Calendar.Hour | task_scheduler.py:265 | `.hour` lies in 0..23 |
| Calendar.FormatHM | task_scheduler.py:270-271 | `strftime('%H:%M')` prints five characters with a colon in the middle |
| Calendar.TwoDigitsValue | task_scheduler.py:270 | a two-digit field reads back as the number it prints |
| Calendar.ParseHM | task_scheduler.py:296 | `strptime(s, '%H:%M')` yields a time of day in 0..1439 minutes |
| Calendar.ParseHMText | task_scheduler.py:296 | a text laid out as `HH:MM` reads as hours times 60 plus minutes |
| Calendar.ParseFormatHM | task_scheduler.py:249-270 | reading back a printed time gives its time of day |
| Calendar.TimeOfDay | task_scheduler.py:265 | the hour and the minute of a time make up its time of day |
| Pattern.RunEnd | date_processor.py:20-30 | a greedy `\s+`/`\d+` run ends where the class first fails, and every character before that belongs to it |
| Pattern.MatchAt | date_processor.py:46-49 | a match ends inside the text, and its capture is a non-empty run of digits |
| Pattern.SearchFrom | date_processor.py:46 | `re.search` returns the leftmost position where the pattern matches; there is none when no position matches |
| Pattern.GreedyMatchIsComplete | date_processor.py:20-30 | for these expressions greedy matching succeeds exactly when the regular expression matches, since backtracking never helps |
| Scheduler.CalculateDuration | task_scheduler.py:319-327 | the minutes from start to end, never negative and under a day; one hour when either time does not read |
| Scheduler.MondayOf | task_scheduler.py:176 | the week key is a Monday, at most six days before the date |
| Scheduler.WeekKeysExactly | task_scheduler.py:173-180 | the week keys are exactly the weeks the dates fall in, each once |
| Scheduler.WeekDatesExactly | task_scheduler.py:173-180 | a week's list holds exactly the dates of that week |
| Scheduler.GroupByWeek | task_scheduler.py:173-180 | the grouping loop builds, for each week in first-seen order, the list of its dates |
| Scheduler.FirstOnDay | task_scheduler.py:186-191 | the day found is a date of the week on the meeting's day of the week; none is found only when the week has no such date |
| Scheduler.FindDay | task_scheduler.py:186-191 | the search loop finds the first date of the week on the meeting's day |
| Scheduler.MeetingEntry | task_scheduler.py:193-208 | one meeting yields at most one entry per week |
| Scheduler.PlaceMeetings | task_scheduler.py:183-208 | the loop over meetings yields the entries of one week |
| Scheduler.AddWeeklyMeetings | task_scheduler.py:164-210 | the method yields the weekly meetings of the business days, or the error of a time that does not read |
| Scheduler.WeekEntries | task_scheduler.py:183-208 | an entry of a week is exactly a meeting whose day the week has, placed on that day at its time |
| Scheduler.WeekEntryFrom | task_scheduler.py:193-208 | every entry of a week comes from a meeting held on one of its days, at a time that reads |
| Scheduler.WeekEntryHas | task_scheduler.py:193-208 | every meeting held on one of a week's days gets its entry |
| Scheduler.SameWeekSameDay | task_scheduler.py:176-191 | two dates of the same week on the same weekday are the same date, so a meeting lands once a week |
| Scheduler.WeeklyMeetingsEntries | task_scheduler.py:164-210 | the scheduled entries are exactly one per business day and meeting held on that day of the week |
| Scheduler.WeeklyEntryIsMeeting | task_scheduler.py:199-208 | each entry is a meeting on one of the dates, on that meeting's day, titled and timed by the meeting |
| Scheduler.MeetingIsWeeklyEntry | task_scheduler.py:186-208 | a meeting held on the weekday of a business day is scheduled on that day |
| Scheduler.WeeklyMeetingsErrors | task_scheduler.py:195 | placing meetings fails only on a meeting time that does not read as `HH:MM`, and the error names it |
| Scheduler.WeeklyMeetingsCount | task_scheduler.py:182-208 | at most one entry per week and meeting |
| Scheduler.WeekMeetingsCount | task_scheduler.py:184-208 | at most one entry per meeting in a week |
| Scheduler.MeetingTaskTimes | task_scheduler.py:195-202 | a meeting entry's start and end both read back as times |
| Scheduler.MeetingTimesParse | task_scheduler.py:248-252 | all meeting entries read back as times, as the skip loop of spreading needs |
| Scheduler.ConcatEntriesParts | task_scheduler.py:286-317 | building a list entry by entry succeeds exactly when every step does, holds every step's entries and reports a failing step's error |
| Scheduler.ConcatEntriesErr | task_scheduler.py:286-317 | once a prefix fails, the whole list fails with the same error |
| Scheduler.ConcatEntriesLength | task_scheduler.py:182-208 | steps of at most c entries each give at most c entries per step |
| Scheduler.OnDate | task_scheduler.py:246 | the day's meetings are exactly the existing entries on that date |
| Scheduler.SkipMeetings | task_scheduler.py:248-253 | the clock after skipping never moves back, and when it moves it lands on the end of a meeting |
| Scheduler.SkipPastMeetings | task_scheduler.py:244-253 | the skip loop starts the clock at 09:00 and, over the day's meetings in start order, moves it past each meeting that starts at or before it (`SkipMeetings`, whose bounds are proved) |
| Scheduler.SkipMeetingsAt | task_scheduler.py:249-253 | one turn of the skip loop stops before a meeting that starts later, or moves to its end |
| Scheduler.DayBlocks | task_scheduler.py:255-279 | a day takes no more blocks than tasks are left |
| Scheduler.FillDay | task_scheduler.py:255-279 | the inner loop places exactly the day's blocks |
| Scheduler.DayBlocksStep | task_scheduler.py:255-279 | one turn of the inner loop places the next block: at most two hours, followed by a 15-minute break |
| Scheduler.DayBlocksShape | task_scheduler.py:255-279 | a day's blocks start at the clock, follow one another with a 15-minute break, each lasts more than half an hour and at most two hours, ends before 18:00, and together they fit in the free time |
| Scheduler.DayBlocksTotal | task_scheduler.py:255-278 | the blocks together take no more than the free time |
| Scheduler.DayBlocksEach | task_scheduler.py:255-265 | each block lasts more than half an hour and at most two hours and ends before 18:00 |
| Scheduler.DayBlocksChain | task_scheduler.py:277 | each block starts 15 minutes after the one before ends |
| Scheduler.DayBlocksStop | task_scheduler.py:255-266 | a day's loop ends only when the tasks run out, the free time is down to half an hour, or the next block would end at 18:00 or later |
| Scheduler.DayWorkBlocks | task_scheduler.py:244-279 | blocks of a day that starts at 09:00 or later are work blocks |
| Scheduler.AvailableByDate | task_scheduler.py:219-230 | every working date gets its free minutes: eight hours less the time existing entries take, never below zero |
| Scheduler.DayMeetings | task_scheduler.py:246-248 | the sorted day's meetings all still read as times |
| Scheduler.DayPlan | task_scheduler.py:234-279 | a day takes no more tasks than are left, all on that date |
| Scheduler.Plan | task_scheduler.py:232-279 | all days together place no more blocks than there are tasks |
| Scheduler.PlanStep | task_scheduler.py:232-279 | one more working day extends the plan by that day's blocks |
| Scheduler.PlanBlocks | task_scheduler.py:232-279 | every placed block is a work block on one of the working dates |
| Scheduler.SpreadDay | task_scheduler.py:234-279 | one turn of the outer loop stamps the next tasks with the day's blocks |
| Scheduler.SpreadStep | task_scheduler.py:234-279 | one more working day appends exactly its stamped tasks to the output |
| Scheduler.SpreadTasksEvenly | task_scheduler.py:212-281 | the loops compute `Spread`: each day's free time, then the tasks in order packed into the days' blocks; `SpreadShape` states what that output is |
| Scheduler.StampShape | task_scheduler.py:256-271 | a stamped task keeps everything but its date, start, end and duration, lasts its block and ends before 18:00 |
| Scheduler.SpreadShape | task_scheduler.py:212-281 | spreading keeps the tasks' order and other fields, places each on a working date for more than half an hour and at most two hours, ending before 18:00, and places no more tasks than given |
| Scheduler.AdjustExactTimes | task_scheduler.py:283-317 | the tasks are updated in place: all looked at on success, the ones before the failing task on a `ValueError` |
| Scheduler.TouchPrefix | task_scheduler.py:286-315 | the first k tasks updated and the rest as they were |
| Scheduler.TouchPrefixNext | task_scheduler.py:286-315 | updating one more task changes only that task |
| Scheduler.AdjustAt | task_scheduler.py:286-315 | one turn of the loop yields the task's entry and updates it in place only when it is kept |
| Scheduler.AdjustTask | task_scheduler.py:288-315 | one task's entry and the task as the loop leaves it; a dropped task is left unchanged |
| Scheduler.ClockTexts | task_scheduler.py:299-304 | the start times written, 09:00 and 16:00, read back as business-hours starts |
| Scheduler.BusinessHour | task_scheduler.py:299-304 | minutes from 09:00 to 16:59 fall in business hours |
| Scheduler.AdjustEntryKept | task_scheduler.py:288-315 | a kept task is settled and differs from the original only in its date, start and end |
| Scheduler.TouchKeeps | task_scheduler.py:288-315 | updating changes at most the date, start and end |
| Scheduler.DatedSettled | task_scheduler.py:292-304 | a task dated on a working date with a start that reads is pulled into business hours |
| Scheduler.UndatedSettled | task_scheduler.py:307-315 | a task without a date or start lands on the first working date at 09:00 |
| Scheduler.AdjustExactSettles | task_scheduler.py:283-317 | every kept task is on a working date within business hours and differs from an input task only in its date, start and end |
| Scheduler.AdjustExactKeeps | task_scheduler.py:283-317 | every task dated on a working date, and every undated task while there is a working date, is kept |
| Scheduler.AdjustExactErrors | task_scheduler.py:290-296 | adjusting fails exactly on a dated task whose date does not read, or whose start does not read while its date is a working date, and the error names that text |
| Scheduler.AdjustExactIdempotent | task_scheduler.py:283-317 | adjusting the adjusted tasks again changes nothing |
| Scheduler.DateTextsReadBack | task_scheduler.py:222-230 | each working date's `YYYY-MM-DD` text parses back as that date, so the string comparison with task dates compares dates |
| Scheduler.WorkingDatesValid | task_scheduler.py:144 | the business days of a range of real dates are real dates |
| Scheduler.DistributeTasks | task_scheduler.py:134-162 | the method returns the sorted schedule; spreading, or a failure before the placement stage, leaves the caller's tasks untouched; on the exact-times path every task is updated in place on success, and on a `ValueError` exactly the tasks before the failing one are |
| Scheduler.DistributeSorted | task_scheduler.py:162 | the result is sorted by date and start, holds the same entries as the unsorted schedule, and keeps ties in their order |
| Scheduler.ScheduleHoldsMeetings | task_scheduler.py:146-160 | a schedule holds all the weekly meetings of the range's business days |
| Scheduler.DistributeMeetings | task_scheduler.py:134-162 | every weekly meeting lands in the result on every business day of the range on its day of the week |
| Scheduler.DistributeSpreadSucceeds | task_scheduler.py:151-154 | spreading never fails when the range and the meeting times read and the range does not end on 9999-12-31 |
| Workflow.Fields | workflow_coordinator.py:328 | a line gives one stripped field per comma-separated part |
| Workflow.Lines | workflow_coordinator.py:241-242 | the stripped text split at newlines always has a first line, so the fallback header is never used |
| Workflow.DataLines | workflow_coordinator.py:324 | the lines kept after the header are all data lines: not blank and not starting with `#` |
| Workflow.ParseGeneratedTasks | workflow_coordinator.py:317-352 | the parsing loop yields the tasks of the data lines that have at least six fields, in order |
| Workflow.BillableTexts | workflow_coordinator.py:344 | `true` reads as billable and `false` does not |
| Workflow.FieldsOfJoin | workflow_coordinator.py:328 | plain fields joined by commas split back into themselves |
| Workflow.CleanPlainDescription | workflow_coordinator.py:331-341 | a plain description that is not quoted is kept as it is |
| Workflow.UnquoteDescription | workflow_coordinator.py:332-335 | a description in one layer of double or single quotes comes out bare |
| Workflow.FormatLineReadsBack | workflow_coordinator.py:326-346 | a task written as a CSV line parses back into the same task |
| Workflow.ParseFormatLine | workflow_coordinator.py:324-346 | a task written as a CSV line is a single data line and parses back into the same task |
| Workflow.ParseWrittenLines | workflow_coordinator.py:321-346 | every line written for a writable task is a data line, and the written lines parse back into exactly those tasks, in order |
| Workflow.ParseFormatText | workflow_coordinator.py:317-352 | parsing inverts writing: a header line followed by one line per task parses back into exactly those tasks, in order |
| Workflow.Unquoted | workflow_coordinator.py:249 | removing quotes leaves no `"` or `'` and keeps every other character as often as before |
| Workflow.UnquotedFields | workflow_coordinator.py:249 | unquoting keeps the commas, so the number of fields stays the same |
| Workflow.CleanGeneratedTasks | workflow_coordinator.py:237-261 | the cleaning loop yields the header, each data line unquoted, then the meeting lines of the corrected generator |
| Workflow.CleanedAsWritten | workflow_coordinator.py:252-257 | with the meeting generator as written, cleaning yields only the header and the unquoted data lines; with the corrected one, its meeting lines follow them |
| Workflow.CleanedLinesShape | workflow_coordinator.py:241-257 | cleaning keeps the first line, appends the meeting lines after the data, and leaves no data line with a quote or a changed field count |
| Workflow.InsertDistinct | workflow_coordinator.py:178 | inserting into an ascending list without duplicates keeps it so and adds exactly the value |
| Workflow.SortedDistinct | workflow_coordinator.py:178 | `sorted(set(xs))` holds every value of xs once, in ascending order |
| Workflow.AscendingUnique | workflow_coordinator.py:178 | an ascending list is determined by its values |
| Workflow.MeetingWeekdays | workflow_coordinator.py:277-280 | the recognised meeting days are weekday numbers below seven |
| Workflow.MeetingWeekdaysExactly | workflow_coordinator.py:272-280 | a weekday is a meeting day exactly when some given day name is its name in some letter case |
| Workflow.DayNamePosition | workflow_coordinator.py:272-275 | each day name maps to its own weekday |
| Workflow.MeetingWeekdaysOf | workflow_coordinator.py:277-280 | the loop builds the meeting weekdays in the order the names are given |
| Workflow.DefaultWeekdays | workflow_coordinator.py:268-280 | the default days, Monday and Wednesday, are weekdays 0 and 2 |
| Workflow.EndTimeReadsBack | workflow_coordinator.py:303-306 | an end time within the day reads back as that many minutes |
| Workflow.PaddedClock | workflow_coordinator.py:306 | an hour and a minute printed with two digits each read back as that time |
| Workflow.TenOClock | workflow_coordinator.py:269-302 | the first default time splits into hour 10 and minute 0 |
| Workflow.ClockSplit | workflow_coordinator.py:302 | a time of two two-digit fields splits into the hour and the minute they show |
| Workflow.DaySlotAt | workflow_coordinator.py:299-306 | a day's meeting is at the meeting day's time (or the first time when there are fewer times) and ends 40 minutes later |
| Workflow.Mondays | workflow_coordinator.py:287-290 | for each missing day, in order, a Monday at most six days before it (or the day itself) |
| Workflow.MondaysOf | workflow_coordinator.py:287-290 | the loop takes the Monday of each missing day |
| Workflow.WeekdaySlotExactly | workflow_coordinator.py:294-309 | one meeting day of a week gives exactly its slot when that day is missing |
| Workflow.WeekdaySlotPresent | workflow_coordinator.py:298-309 | a missing meeting day gives one slot |
| Workflow.WeekdaySlotAbsent | workflow_coordinator.py:298 | a meeting day that is not missing gives no slot |
| Workflow.WeekSlotFrom | workflow_coordinator.py:294-309 | a week's slot comes from one of its meeting days |
| Workflow.WeekSlotHas | workflow_coordinator.py:294-309 | each meeting day's slot is among the week's slots |
| Workflow.WeekSlotsIn | workflow_coordinator.py:294-309 | a week's slots are exactly its missing meeting days, each at its time |
| Workflow.WeekMeetingSlots | workflow_coordinator.py:294-309 | the inner loop collects one week's slots |
| Workflow.CollectSlots | workflow_coordinator.py:293-309 | the outer loop collects each week's slots in turn and stops at the first error |
| Workflow.SlotsInMissing | workflow_coordinator.py:295-298 | every slot is on a missing day |
| Workflow.SlotsExactly | workflow_coordinator.py:263-311 | the slots are exactly the meetings asked for on the missing days: one per missing day on the i-th meeting weekday, at the i-th time, ending 40 minutes later |
| Workflow.SlotIsMeeting | workflow_coordinator.py:293-309 | a slot is on a missing day, on one meeting day's weekday, at that day's time |
| Workflow.MeetingIsSlot | workflow_coordinator.py:293-309 | a meeting asked for on a missing day is a slot |
| Workflow.WeekdayFromMonday | workflow_coordinator.py:289-295 | the Monday of a week plus w days falls on weekday w |
| Workflow.FormatDatePlain | workflow_coordinator.py:308 | a printed date is a plain CSV field that does not start a comment |
| Workflow.SlotLineParses | workflow_coordinator.py:308-346 | a meeting line parses back into its meeting task |
| Workflow.MeetingTaskParses | workflow_coordinator.py:308-345 | the meeting line's fixed texts parse back as description, project, task name and `billable` false |
| Workflow.GenerateScheduledMeetings | workflow_coordinator.py:263-315 | the method (with `timedelta` imported) yields the meeting lines, or none when Python would raise |
| Workflow.LinesOfSlots | workflow_coordinator.py:282-311 | once the slots are known, the lines are theirs, one each |
| Workflow.OneMondaySlots | workflow_coordinator.py:286-309 | one missing Monday with Monday and Wednesday meetings gives one slot, on that Monday |
| Workflow.TimedeltaFinding | workflow_coordinator.py:286-315 | on the default preferences and one missing Monday, the code as written yields no meeting line while the intended code yields the Monday 10:00-10:40 meeting |
| Workflow.TimedeltaFindingExample | workflow_coordinator.py:289 | the same on 2024-06-17 |
| Coordinator.ExistingDates | workflow_coordinator.py:161-186 | the existing dates are the distinct entry dates in ascending order, and none when Clockify cannot be read |
| Coordinator.AiTasksIn | workflow_coordinator.py:208-235 | a task list comes back exactly when the client has a model and Gemini answers the prompt (built from the given or default preferences) with non-empty text |
| Coordinator.GenerateTasksIn | workflow_coordinator.py:208-235 | for any wording of the prompt, the method returns `AiTasksIn`: the cleaned reply text when the client has a model and the reply is non-empty text, none otherwise |
| Coordinator.GenerateTasksWithAi | workflow_coordinator.py:208-235 | the method returns the cleaned task list of Gemini's answer, or none |
| Coordinator.ModelServices | workflow_coordinator.py:38-159 | the model's collaborators parse the range, find the missing days and generate tasks as this model's definitions do |
| Coordinator.ModelMissingDays | workflow_coordinator.py:75-93 | with the model's collaborators, the missing days are exactly the weekdays of the range without a Clockify entry, in ascending order |
| Coordinator.ExecuteWorkflow | workflow_coordinator.py:38-159 | the steps run in their fixed order and stop at the first failure with exactly one error; success means no error; each step's outcome (bad range, all days filled, no repository, no commits, cancelled preferences, AI failure, scheduling error or completion with the task count) follows from its collaborators' answers, and the data holds what each step produced, the scheduling preferences included from step 6 on |
| Coordinator.ImportedCount | workflow_coordinator.py:364-370 | no more tasks are imported than given |
| Coordinator.ImportedSome | workflow_coordinator.py:377 | some task is imported exactly when Clockify accepts one of them |
| Coordinator.ImportedConcat | workflow_coordinator.py:364-370 | importing two batches counts as importing them together |
| Coordinator.FailuresConcat | workflow_coordinator.py:364-375 | the failures of two batches are those of the first, then those of the second |
| Coordinator.ImportTasks | workflow_coordinator.py:354-383 | every task is counted once, as imported or as failed with its message; the import succeeds exactly when some task was imported |
| Gemini.VersionPoints | gemini_api.py:67-73 | the version points are 100, 80 or 60 exactly when the name holds "2.0", else "1.5", else "1.0" |
| Gemini.TypePoints | gemini_api.py:75-79 | the type points are 40 for "pro", else 30 for "flash", else 0 |
| Gemini.ScoreModel | gemini_api.py:59-85 | a score is at most 1160 (1000 + 100 + 40 + 20), and at least 1000 exactly when the lower-cased name holds "thinking" |
| Gemini.ScoreParts | gemini_api.py:59-85 | the score is the sum of the thinking, version, type and experimental bonuses of the lower-cased name |
| Gemini.ThinkingOutscores | gemini_api.py:63-65 | every thinking model outscores every model without "thinking" |
| Gemini.Candidates | gemini_api.py:47-53 | no more candidates than listed models |
| Gemini.CandidatesExactly | gemini_api.py:47-53 | a listed model that supports `generateContent` is a candidate |
| Gemini.GetBestModel | gemini_api.py:41-99 | there is no best model exactly when there is no candidate; otherwise it is the first of the candidates ranked by score, highest first |
| Gemini.BestModelIsFirstMaximal | gemini_api.py:88-95 | the chosen model has the highest score, and every candidate listed before it scores less |
| Gemini.FallbackFirstSuccess | gemini_api.py:101-124 | the fallback succeeds exactly when some name answers its test, and then the client holds the first name that answers |
| Gemini.FallbackAllFail | gemini_api.py:112-124 | when every name fails, the client holds the last name it could create, or what it held before |
| Gemini.LastCreated | gemini_api.py:112-121 | the held model is the one held before or one of the names that could be created |
| Gemini.FallbackPrefersThinking | gemini_api.py:104-118 | when the thinking model answers, it is the one chosen |
| Gemini.GeminiClient.constructor | gemini_api.py:7-10 | a new client holds no model (`self.model = None`); the constructor stops before `_initialize_client`, whose best-model and fallback parts are `Gemini.GetBestModel` and `Gemini.GeminiClient.FallbackModelSelection` |
| Gemini.GeminiClient.FallbackModelSelection | gemini_api.py:101-124 | the method tries the five fixed names in order; its success flag and the model it leaves held are those of `Fallback`, which `FallbackFirstSuccess` and `FallbackAllFail` characterise |
| Gemini.GeminiClient.GenerateTaskList | gemini_api.py:171-186 | without a model the call fails with "Gemini client not initialized"; otherwise the reply to the task prompt decides the outcome |
| Gemini.GeminiClient.GenerateIn | gemini_api.py:171-186 | the same, for the prompt in any wording |
| Gemini.ReplyOutcome | gemini_api.py:180-186 | the call succeeds exactly when the reply has non-empty text, and then returns that text; a raised error is reported with its message |
| Gemini.CommitLinesSnoc | gemini_api.py:203-204 | one more commit adds one more numbered line |
| Gemini.BuildPromptIn | gemini_api.py:188-223 | the loop builds the head, one line per listed commit, then the instructions |
| Gemini.BuildTaskPrompt | gemini_api.py:188-223 | the method builds the task prompt |
| Gemini.PromptDefaults | gemini_api.py:190-191 | missing preferences read as 8 working hours and 2 meetings a week |
| Gemini.PromptIgnoresLaterCommits | gemini_api.py:203 | commits after the twentieth never reach the prompt |
| Gemini.PromptListsCommit | gemini_api.py:203-204 | each of the first 20 commits appears in the prompt as its own line, numbered from 1 |
| VersionScoring.FindVersion | test_dynamic_selection.py:46-50 | a version is found exactly when the search for `(\d+)\.(\d+)` succeeds |
| VersionScoring.FindVersionIsRegexSearch | test_dynamic_selection.py:46-47 | a version is found exactly when the regular expression matches somewhere in the name |
| VersionScoring.VersionPatternSeparated | test_dynamic_selection.py:46 | the version pattern's digit run is followed only by a literal dot, so greedy matching is the regular expression's |
| VersionScoring.NoVersion | test_dynamic_selection.py:46-49 | a name without a digit has no version |
| VersionScoring.VersionIn | test_dynamic_selection.py:46-51 | a digit-free prefix, then `major.minor`, then a rest not starting with a digit, gives exactly that version |
| VersionScoring.VersionFromLayout | test_dynamic_selection.py:46-51 | a version layout with no digit before it is the version found |
| VersionScoring.LayoutMatches | test_dynamic_selection.py:46-47 | the greedy match on a version layout finds its two digit runs |
| VersionScoring.NoMatchBefore | test_dynamic_selection.py:47 | with no digit before a version layout, the search stops at its start |
| VersionScoring.VersionPoints | test_dynamic_selection.py:52-57 | a version scores a thousand per major and a hundred per minor, plus a bonus of at most 500 |
| VersionScoring.VersionScore | test_dynamic_selection.py:42-64 | without a version only `gemini-pro` scores, with 100; every other such name scores 0 |
| VersionScoring.VersionPointsOrder | test_dynamic_selection.py:52-57 | while minors stay single digits, version points order versions by major, then minor |
| VersionScoring.TypeBonus | test_dynamic_selection.py:78-86 | the type bonus is 500 for "ultra", else 400 for "pro", else 300 for "flash", else 350 for "advanced", else 0 |
| VersionScoring.ExpBonus | test_dynamic_selection.py:88-90 | the experimental bonus is 200 exactly when the name holds "exp" |
| VersionScoring.ExperimentalContainsExp | test_dynamic_selection.py:89 | the test for "experimental" adds nothing, since such names hold "exp" |
| VersionScoring.ThinkingBonus | test_dynamic_selection.py:71-73 | the thinking bonus is 10000 exactly when the name holds "thinking" |
| VersionScoring.ScoreModel | test_dynamic_selection.py:66-92 | a score is the sum of the bonuses of the lower-cased name; apart from the 10000 thinking bonus, which it carries exactly when the name holds "thinking", it lies between the version score and 700 more |
| VersionScoring.ThinkingOutscores | test_dynamic_selection.py:66-92 | a thinking name outscores a name without "thinking" whose version score is below 9300 |
| VersionScoring.ThinkingCanBeOutranked | test_dynamic_selection.py:117 | without that bound the claim fails: `gemini-10.0-pro` outscores `gemini-thinking` |
| VersionScoring.RankModels | test_dynamic_selection.py:96-107 | the method scores the models, then sorts the rows by score, highest first |
| VersionScoring.RankingOrdered | test_dynamic_selection.py:107 | the ranking holds every row once and never puts a lower score before a higher one |
| VersionScoring.ThinkingRanksFirst | test_dynamic_selection.py:107-117 | every thinking row comes before every other row, when no other model's version score reaches 9300 |
| VersionScoring.ExpectedScores | test_dynamic_selection.py:20-40 | every model of the table scores exactly what the table expects |
| VersionScoring.TableRow | test_dynamic_selection.py:20-40 | a table row is a thinking model exactly when its expected score is 10000 or more |
| VersionScoring.TableGuard | test_dynamic_selection.py:20-40 | no model of the table without "thinking" comes near the thinking bonus |
| VersionScoring.TableThinkingFirst | test_dynamic_selection.py:20-40 | on the table, every thinking model ranks above every other model |
| SelectRepo.PermissionLabel | select_repo.py:44-51 | the shown permission is "admin", else "write" for push, else "read" |
| SelectRepo.SortRepos | select_repo.py:36 | the in-place sort leaves the list sorted by owner, then name, stably |
| SelectRepo.SortedRepos | select_repo.py:36 | the sorted list holds the same repositories, as often, in non-decreasing owner-then-name order |
| SelectRepo.Choose | select_repo.py:57-79 | `q` quits, a number k from 1 to the list's length picks the k-th repository, any other number asks again, and text that is no number asks again |
| SelectRepo.MenuNumberPicks | select_repo.py:41-66 | typing the number the menu shows beside a repository picks it |
| SelectRepo.FirstDefaultFrom | select_repo.py:93-97 | the first line from i on that starts with the default key, or none |
| SelectRepo.UpdatedLines | select_repo.py:91-100 | one line changes at most: the first default line when there is one, otherwise a new last line |
| SelectRepo.UpdateDefaultRepo | select_repo.py:84-109 | the loop and the append yield the updated lines |
| SelectRepo.DefaultLineHasKey | select_repo.py:95-100 | the written line starts with the default key |
| SelectRepo.UpdateSetsDefault | select_repo.py:91-100 | afterwards the first default line names the chosen repository |
| SelectRepo.UpdateIdempotent | select_repo.py:91-100 | setting the same default twice leaves the lines as setting it once |
| Sorting.StableSortPermutes | task_scheduler.py:162 | sorting holds the same elements, as often |
| Sorting.StableSortSorted | task_scheduler.py:162 | the sorted list is in order |
| Sorting.StableSortKeepsTieOrder | task_scheduler.py:162 | elements with equal keys come out in the order they went in |
| Sorting.StableSortFirst | gemini_api.py:88-95 | the first of the sorted list comes from the input, nothing comes before it, and every element listed before it in the input comes strictly after it |
| Sorting.SortInPlace | select_repo.py:36 | the in-place `list.sort` leaves the stable sort of the old contents |
| Sorting.StringKeyOrder | task_scheduler.py:248 | ordering by a string key is a strict weak order |
| Sorting.PairKeyOrder | task_scheduler.py:162 | ordering by a pair of strings is a strict weak order |
| Sorting.DescendingIntKeyOrder | gemini_api.py:88 | ordering by an integer key, largest first, is a strict weak order |
| Text.TrimStart | date_processor.py:43 | `lstrip` drops the leading whitespace and nothing else |
| Text.TrimEnd | date_processor.py:43 | `rstrip` drops the trailing whitespace and nothing else |
| Text.StripIdempotent | workflow_coordinator.py:328 | stripping twice is stripping once, and a stripped text has no whitespace at either end |
| Text.Split | workflow_coordinator.py:328 | a split is never empty, its parts hold no separator, and joining them gives the text back |
| Text.SplitJoin | workflow_coordinator.py:321 | splitting a join of separator-free parts gives the parts back |
| Text.SplitCount | workflow_coordinator.py:328 | a split has one part more than the text has separators |
| Text.Lower | date_processor.py:43 | lower-casing keeps the length, leaves no capital letter, turns each capital into its small letter and leaves every other character as it was |
| Text.RemoveChar | workflow_coordinator.py:249 | removing a character leaves none of it and keeps every other character as often |
| Text.NatToString | select_repo.py:53 | `str(n)` has no leading zero and reads back as n |
| Text.PadNat | workflow_coordinator.py:306 | `f"{n:02d}"` has at least two digits and reads back as n |
| Text.PadNatWidth | workflow_coordinator.py:306 | a number below 100 is printed in exactly two digits |
| Text.ParseIntDigits | workflow_coordinator.py:302 | `int` of a text of digits is their value |
| Text.ParseIntOfNatToString | select_repo.py:64 | `int(str(n)) == n` |

## Left out

- The HTTP clients (clockify_api.py, github_api.py, clockify_import_csv_api.py) and the `google.generativeai` SDK are not part of this model. Their answers are inputs: Clockify entry dates, commit lists, the model listing, the reply to a prompt (`Gemini.Reply`), and the accept-or-reject answer of `create_time_entry`.
- `GeminiAPI._initialize_client`, `test_connection`, `get_model_info` and `get_api_key_help` only drive the SDK or return fixed help text, so they are not modelled. The fallback search and the best-model choice they rely on are modelled.
- The interactive prompts are not modelled: `get_scheduling_preferences`, `_get_weekly_meetings_setup`, the `input()` loop of `select_repository` (only one pass, `SelectRepo.Choose`, is) and the `y/n` question after a choice. Their answers are inputs. A meeting record's validated ranges are `Scheduler.ValidMeeting`.
- File I/O is left out: the read and write of `_API_KEYS` in `update_default_repo` (its lines are a sequence), `save_tasks_to_csv` and config.py's environment loading. The configured default repository is a parameter.
- `date.today()` and `datetime.now()` are the parameter `today`.
- Logging, printing, the demos (`demo_scheduler`, the demo and diagnostic scripts) and `get_workflow_status` are not modelled.
- `_get_existing_clockify_data` receives entry dates, not entries. `datetime.fromisoformat` on the entries' start text is not modelled, and neither is `data['existing_entries']`.
- `Coordinator.RangeInfo` leaves out `data['time_range']['formatted']`. `DateRange.FormatDateRange` models that text on its own.
- `Coordinator.ExecuteWorkflow` takes its collaborators as abstract functions. The connection to this model's definitions is `Coordinator.ModelServices` together with the lemmas about each definition; no single lemma composes them.
- Coordinator.ImportTasks: an exception raised by `create_time_entry` (the `Import error:` path) is not modelled; the collaborator always answers.
- Workflow.CleanGeneratedTasks: uses the corrected meeting generator `Workflow.MeetingLines`, so it appends meeting lines where the code as written appends none (see Findings and `Workflow.CleanedAsWritten`).
- Workflow.CleanGeneratedTasks: the `except` that returns the text unchanged is not modelled, because nothing in its body can raise once `_generate_scheduled_meetings` catches its own errors.
- Durations are whole minutes, not float hours. `_calculate_duration`'s float division and `_spread_tasks_evenly`'s `available_time > 0.5` test are therefore exact minute comparisons.
- `lower()`, `\d` and `int()` are modelled on ASCII only. Python also accepts non-ASCII digits and case-folds non-ASCII letters. `strip()` and `\s` use Python's full whitespace set.
- Gemini.PromptDefaults and Gemini.PromptListsCommit are stated for a prompt in any wording. The task prompt is that prompt with the wording of gemini_api.py:193-222, and the preference values are natural numbers.
- VersionScoring.ThinkingRanksFirst holds only while no model without "thinking" has a version score of 9300 or more. `VersionScoring.ThinkingCanBeOutranked` shows that the unguarded claim at test_dynamic_selection.py:117 fails.

## Findings

| source | as written | input that shows it | evidently intended | confidence | as-written member | corrected member |
|---|---|---|---|---|---|---|
| workflow_coordinator.py:286-315 | `timedelta` is used at line 289, but line 9 imports only `datetime` and `date`, so `_generate_scheduled_meetings` raises `NameError` on every call that gets past its early return; the handler then returns no lines | missing days `[2024-06-17]` (a Monday), default preferences: no meeting line | the Monday 10:00-10:40 team meeting line, and in general one line per missing day on a meeting weekday | not executed | Workflow.MeetingLinesAsWritten (Workflow.TimedeltaFinding, Workflow.TimedeltaFindingExample, Workflow.CleanedAsWritten) | Workflow.MeetingLines (Workflow.SlotsExactly, Workflow.GenerateScheduledMeetings) |
