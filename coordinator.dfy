/**
 * `WorkflowCoordinator.execute_workflow` and `import_tasks_to_clockify`
 * (workflow_coordinator.py): the seven steps that turn a time range into scheduled
 * tasks, stopping at the first one that fails, and the counters of the import loop.
 *
 * The collaborators `execute_workflow` calls (the date processor, Clockify, GitHub, the
 * scheduling prompts, Gemini and the scheduler) are a record of function values, and
 * `ModelServices` fills it with this model's own definitions. The configured default
 * repository, the Gemini reply and `date.today()` are parameters.
 */
module Coordinator {
  import opened Results
  import opened Text
  import opened Calendar
  import opened DateRange
  import opened Scheduler
  import opened Workflow
  import Gemini

  // ---------------------------------------------------------------- the workflow result

  /** The names `steps_completed` collects, in the order the steps run. */
  const StepOrder: seq<string> := [
    "parse_time_range",
    "check_clockify_entries",
    "identify_missing_days",
    "fetch_github_commits",
    "get_scheduling_preferences",
    "generate_ai_tasks",
    "schedule_tasks"
  ]

  const AllFilled: string := "All work days have entries. No missing data to generate."
  const NoRepository: string := "No repository specified and no default repository configured"
  const NoCommits: string := "No commits found for the missing period"
  const Cancelled: string := "User cancelled scheduling setup"
  const AiFailed: string := "Failed to generate tasks with AI"

  /** The message of an exception that reaches `execute_workflow`'s handler. */
  function WorkflowError(e: string): string {
    "Workflow error: " + e
  }

  function Completed(count: nat): string {
    "Workflow completed successfully. Generated " + NatToString(count) + " scheduled tasks."
  }

  /** `data['time_range']`: the range and its number of work days. */
  datatype RangeInfo = RangeInfo(start: int, end: int, workDays: int)

  /** The entries of `workflow_result['data']` the steps fill in; `None` for one not set. */
  datatype WorkflowData = WorkflowData(
    timeRange: Option<RangeInfo>,
    existingDates: Option<seq<int>>,
    missingDays: Option<seq<int>>,
    commits: Option<seq<Gemini.Commit>>,
    schedulingPrefs: Option<Preferences>,
    generated: Option<string>,
    scheduled: Option<seq<Task>>)

  /** The dictionary `execute_workflow` returns. */
  datatype WorkflowResult = WorkflowResult(
    success: bool, message: string, steps: seq<string>, errors: seq<string>, data: WorkflowData)

  /** The user preferences the AI step reads: the prompt's numbers and the meeting days and times. */
  datatype UserPrefs = UserPrefs(prompt: Gemini.PromptPrefs, ai: AiPreferences)

  /** The dictionary `_generate_tasks_with_ai` puts in place of absent or empty preferences. */
  const DefaultPrefs: UserPrefs := UserPrefs(
    Gemini.PromptPrefs(Some(8), Some(2)),
    AiPreferences(Some(["Monday", "Wednesday"]), Some(["10:00", "14:00"])))

  // ---------------------------------------------------------------- the collaborators

  /**
   * `_get_existing_clockify_data`: the distinct entry dates in ascending order, or none when
   * Clockify could not be read (`clockify` is `None`).
   */
  function ExistingDates(clockify: Option<seq<int>>): (r: seq<int>)
    ensures StrictlyAscending(r)
    ensures forall d :: d in r <==> clockify.Some? && d in clockify.value
  {
    if clockify.None? then [] else SortedDistinct(clockify.value)
  }

  /** The repository asked for commits: the one given, or else the configured default. */
  function RepositoryFor(repository: string, defaultRepo: string): string {
    if repository != "" then repository else defaultRepo
  }

  /** `_get_github_commits_for_period`: what GitHub returned, or no commits when the request failed. */
  function CommitsOrNone(fetched: Option<seq<Gemini.Commit>>): seq<Gemini.Commit> {
    if fetched.Some? then fetched.value else []
  }

  /** The preferences the AI step uses: the caller's, or the defaults when there are none. */
  function PrefsOrDefault(userPrefs: Option<UserPrefs>): UserPrefs {
    if userPrefs.Some? then userPrefs.value else DefaultPrefs
  }

  /**
   * What `_generate_tasks_with_ai` returns when the prompt is worded `w`: the cleaned task
   * list when Gemini answers with one, `None` when the client is not initialized or the
   * call fails.
   */
  function AiTasksIn(w: Gemini.Wording, model: Option<string>, commits: seq<Gemini.Commit>, missing: seq<int>,
                     userPrefs: Option<UserPrefs>, reply: string -> Gemini.Reply): (csv: Option<string>)
    requires ValidDates(missing)
    ensures csv.Some? <==> model.Some? && reply(Gemini.PromptIn(w, commits, Some(PrefsOrDefault(userPrefs).prompt))).Text?
                           && reply(Gemini.PromptIn(w, commits, Some(PrefsOrDefault(userPrefs).prompt))).text != []
  {
    var prefs := PrefsOrDefault(userPrefs);
    if model.None? then None
    else
      var outcome := Gemini.ReplyOutcome(reply(Gemini.PromptIn(w, commits, Some(prefs.prompt))));
      if outcome.ok then Some(CleanGenerated(outcome.text, missing, prefs.ai)) else None
  }

  /** `_generate_tasks_with_ai` with the task-list prompt. */
  function AiTasks(model: Option<string>, commits: seq<Gemini.Commit>, missing: seq<int>,
                   userPrefs: Option<UserPrefs>, reply: string -> Gemini.Reply): Option<string>
    requires ValidDates(missing)
  {
    AiTasksIn(Gemini.TaskWording, model, commits, missing, userPrefs, reply)
  }

  /** `_generate_tasks_with_ai` as Python runs it, with the prompt worded `w`. */
  method GenerateTasksIn(w: Gemini.Wording, gemini: Gemini.GeminiClient, commits: seq<Gemini.Commit>, missing: seq<int>,
                         userPrefs: Option<UserPrefs>, reply: string -> Gemini.Reply)
    returns (csv: Option<string>)
    requires ValidDates(missing)
    ensures csv == AiTasksIn(w, gemini.model, commits, missing, userPrefs, reply)
  {
    var prefs := PrefsOrDefault(userPrefs);
    var outcome := gemini.GenerateIn(w, commits, Some(prefs.prompt), reply);
    if outcome.ok {
      var cleaned := CleanGeneratedTasks(outcome.text, missing, prefs.ai);
      return Some(cleaned);
    }
    return None;
  }

  /** `_generate_tasks_with_ai`. */
  method GenerateTasksWithAi(gemini: Gemini.GeminiClient, commits: seq<Gemini.Commit>, missing: seq<int>,
                             userPrefs: Option<UserPrefs>, reply: string -> Gemini.Reply)
    returns (csv: Option<string>)
    requires ValidDates(missing)
    ensures csv == AiTasks(gemini.model, commits, missing, userPrefs, reply)
  {
    csv := GenerateTasksIn(Gemini.TaskWording, gemini, commits, missing, userPrefs, reply);
  }

  // ---------------------------------------------------------------- execute_workflow

  /**
   * What `execute_workflow` gets from its collaborators, as values: the date processor's
   * parse, work-day count and missing days; the dates of the Clockify entries between two
   * days (`None` when the request fails); GitHub's commits of a repository between two days
   * (`None` when the request fails); the scheduling answers (`None` when cancelled);
   * `_generate_tasks_with_ai`; `_parse_generated_tasks`; and the scheduler's `distribute_tasks`.
   */
  datatype Services = Services(
    parseTimeRange: string -> Result<Span, string>,
    workDays: (int, int) -> Result<int, string>,
    missingWorkDays: (int, int, seq<int>) -> Result<seq<int>, string>,
    clockifyDates: (int, int) -> Option<seq<int>>,
    commits: (string, int, int) -> Option<seq<Gemini.Commit>>,
    schedulingPrefs: Option<Preferences>,
    generateTasks: (seq<Gemini.Commit>, seq<int>) -> Option<string>,
    parseTasks: string -> seq<Task>,
    distribute: (seq<Task>, string, Preferences) -> Result<seq<Task>, string>)

  /** The error a date collaborator reports for days that are not real dates. */
  const NotADate: string := "date out of range"

  /**
   * The collaborators as this model defines them, on `today`, with the Gemini model the
   * client holds and the service's reply.
   */
  function ModelServices(today: int, model: Option<string>, reply: string -> Gemini.Reply, userPrefs: Option<UserPrefs>,
                         clockify: (int, int) -> Option<seq<int>>, github: (string, int, int) -> Option<seq<Gemini.Commit>>,
                         scheduling: Option<Preferences>): (s: Services)
    requires ValidOrdinal(today)
    ensures forall text :: s.parseTimeRange(text) == TimeRange(today, text)
    ensures forall start, end, existing :: ValidOrdinal(start) && ValidOrdinal(end) ==>
      s.missingWorkDays(start, end, existing) == GetMissingWorkDays(start, end, existing)
    ensures forall commits, missing :: ValidDates(missing) ==>
      s.generateTasks(commits, missing) == AiTasks(model, commits, missing, userPrefs, reply)
  {
    Services(
      text => TimeRange(today, text),
      (start, end) => if ValidOrdinal(start) && ValidOrdinal(end) then WorkDaysCount(start, end) else Err(NotADate),
      (start, end, existing) =>
        if ValidOrdinal(start) && ValidOrdinal(end) then GetMissingWorkDays(start, end, existing) else Err(NotADate),
      clockify,
      github,
      scheduling,
      (commits, missing) => if ValidDates(missing) then AiTasks(model, commits, missing, userPrefs, reply) else None,
      text => ParsedTasks(text),
      (tasks, text, prefs) => Distribute(today, tasks, text, prefs))
  }

  /** With this model's date processor, the missing days are the weekdays of the range without an entry, ascending. */
  lemma ModelMissingDays(today: int, model: Option<string>, reply: string -> Gemini.Reply, userPrefs: Option<UserPrefs>,
                         clockify: (int, int) -> Option<seq<int>>, github: (string, int, int) -> Option<seq<Gemini.Commit>>,
                         scheduling: Option<Preferences>, text: string)
    requires ValidOrdinal(today)
    requires TimeRange(today, text).Ok?
    ensures var s := ModelServices(today, model, reply, userPrefs, clockify, github, scheduling);
      var (start, end) := TimeRange(today, text).value;
      var existing := ExistingDates(s.clockifyDates(start, end));
      var m := s.missingWorkDays(start, end, existing);
      m.Ok? ==>
        && StrictlyAscending(m.value)
        && forall d :: d in m.value <==> start <= d <= end && Weekday(d) < 5 && d !in existing
  {
    TimeRangeValid(today, text);
    var (start, end) := TimeRange(today, text).value;
    var existing := ExistingDates(clockify(start, end));
    if GetMissingWorkDays(start, end, existing).Ok? {
      MissingWorkDays(start, end, existing);
    }
  }

  /** The steps done so far, in their fixed order. */
  predicate StepsInOrder(steps: seq<string>) {
    |steps| <= |StepOrder| && steps == StepOrder[..|steps|]
  }

  /**
   * `execute_workflow`. Each step appends its name, then either stops with one error or goes
   * on; an exception a collaborator raises ends in one "Workflow error" entry. Stage by
   * stage, the contract says which results stop the workflow there and with what.
   */
  method ExecuteWorkflow(s: Services, timeRange: string, repository: string, defaultRepo: string)
    returns (r: WorkflowResult)
    ensures StepsInOrder(r.steps) && r.steps != []
    ensures r.success <==> r.errors == []
    ensures |r.errors| <= 1
    ensures r.success ==> |r.steps| == 7 || (|r.steps| == 3 && r.data.missingDays == Some([]))
    // Step 1: the time range and its work days.
    ensures var range := s.parseTimeRange(timeRange);
      range.Err? ==> r.steps == StepOrder[..1] && r.errors == [WorkflowError(range.error)]
    ensures var range := s.parseTimeRange(timeRange);
      range.Ok? && s.workDays(range.value.0, range.value.1).Err? ==>
        r.steps == StepOrder[..1] && r.errors == [WorkflowError(s.workDays(range.value.0, range.value.1).error)]
    // Steps 2 and 3: the existing entries and the missing days.
    ensures |r.steps| >= 2 ==> |r.steps| >= 3
    ensures |r.steps| >= 3 ==>
      && s.parseTimeRange(timeRange).Ok?
      && var (start, end) := s.parseTimeRange(timeRange).value;
      && s.workDays(start, end).Ok?
      && r.data.timeRange == Some(RangeInfo(start, end, s.workDays(start, end).value))
      && var existing := ExistingDates(s.clockifyDates(start, end));
      && r.data.existingDates == Some(existing)
      && var m := s.missingWorkDays(start, end, existing);
      && (m.Err? ==> |r.steps| == 3 && r.errors == [WorkflowError(m.error)])
      && (m.Ok? ==> r.data.missingDays == Some(m.value))
    ensures r.data.missingDays.Some? ==> |r.steps| >= 3
    ensures r.data.missingDays == Some([]) ==> r.success && r.message == AllFilled && |r.steps| == 3
    // Step 4: the commits of the missing period.
    ensures var repo := RepositoryFor(repository, defaultRepo);
      r.data.missingDays.Some? && r.data.missingDays.value != [] && repo == "" ==>
        r.errors == [NoRepository] && |r.steps| == 3
    ensures |r.steps| >= 4 <==> r.data.commits.Some?
    ensures |r.steps| >= 4 ==>
      && var repo := RepositoryFor(repository, defaultRepo);
      && repo != ""
      && r.data.missingDays.Some? && r.data.missingDays.value != []
      && var m := r.data.missingDays.value;
      && r.data.commits == Some(CommitsOrNone(s.commits(repo, m[0], m[|m| - 1])))
    ensures r.data.commits == Some([]) ==> r.errors == [NoCommits] && |r.steps| == 4
    // Step 5: the scheduling preferences.
    ensures |r.steps| >= 5 <==> r.data.commits.Some? && r.data.commits.value != []
    ensures |r.steps| >= 5 && s.schedulingPrefs.None? ==> r.errors == [Cancelled] && |r.steps| == 5
    // Step 6: the task list from the AI.
    ensures |r.steps| >= 6 <==> r.data.schedulingPrefs.Some?
    ensures |r.steps| >= 6 ==> r.data.schedulingPrefs == s.schedulingPrefs
    ensures |r.steps| >= 6 ==>
      var csv := s.generateTasks(r.data.commits.value, r.data.missingDays.value);
      && (csv.None? || csv.value == "" ==> r.errors == [AiFailed] && |r.steps| == 6)
      && (|r.steps| == 7 <==> csv.Some? && csv.value != "")
      && (|r.steps| == 7 ==> r.data.generated == csv)
    // Step 7: the tasks parsed and scheduled.
    ensures |r.steps| == 7 ==>
      var scheduled := s.distribute(s.parseTasks(r.data.generated.value), timeRange, s.schedulingPrefs.value);
      && (scheduled.Err? ==> r.errors == [WorkflowError(scheduled.error)])
      && (scheduled.Ok? ==> r.success && r.data.scheduled == Some(scheduled.value)
                            && r.message == Completed(|scheduled.value|))
  {
    // Each step appends its name to `steps_completed`: after step k the list is `StepOrder[..k]`.
    r := WorkflowResult(false, "", [], [], WorkflowData(None, None, None, None, None, None, None));

    // Step 1: the time range.
    r := r.(steps := StepOrder[..1]);
    var range := s.parseTimeRange(timeRange);
    if range.Err? {
      r := r.(errors := [WorkflowError(range.error)]);
      return;
    }
    var (start, end) := range.value;
    var workDays := s.workDays(start, end);
    if workDays.Err? {
      r := r.(errors := [WorkflowError(workDays.error)]);
      return;
    }
    r := r.(data := r.data.(timeRange := Some(RangeInfo(start, end, workDays.value))));

    // Step 2: the dates Clockify already has.
    r := r.(steps := StepOrder[..2]);
    var existing := ExistingDates(s.clockifyDates(start, end));
    r := r.(data := r.data.(existingDates := Some(existing)));

    // Step 3: the business days without entries.
    r := r.(steps := StepOrder[..3]);
    var missingOr := s.missingWorkDays(start, end, existing);
    if missingOr.Err? {
      r := r.(errors := [WorkflowError(missingOr.error)]);
      return;
    }
    var missing := missingOr.value;
    r := r.(data := r.data.(missingDays := Some(missing)));
    if missing == [] {
      r := r.(success := true, message := AllFilled);
      return;
    }

    // Step 4: the commits of the missing period.
    var repo := RepositoryFor(repository, defaultRepo);
    if repo == "" {
      r := r.(errors := [NoRepository]);
      return;
    }
    r := r.(steps := StepOrder[..4]);
    var commits := CommitsOrNone(s.commits(repo, missing[0], missing[|missing| - 1]));
    r := r.(data := r.data.(commits := Some(commits)));
    if commits == [] {
      r := r.(errors := [NoCommits]);
      return;
    }

    // Step 5: the scheduling preferences.
    r := r.(steps := StepOrder[..5]);
    if s.schedulingPrefs.None? {
      r := r.(errors := [Cancelled]);
      return;
    }
    r := r.(data := r.data.(schedulingPrefs := s.schedulingPrefs));

    // Step 6: the task list from the AI.
    r := r.(steps := StepOrder[..6]);
    var csv := s.generateTasks(commits, missing);
    if csv.None? || csv.value == "" {
      r := r.(errors := [AiFailed]);
      return;
    }
    r := r.(data := r.data.(generated := Some(csv.value)));

    // Step 7: the tasks parsed and scheduled.
    r := r.(steps := StepOrder[..7]);
    var scheduled := s.distribute(s.parseTasks(csv.value), timeRange, s.schedulingPrefs.value);
    if scheduled.Err? {
      r := r.(errors := [WorkflowError(scheduled.error)]);
      return;
    }
    r := r.(data := r.data.(scheduled := Some(scheduled.value)));
    r := r.(success := true, message := Completed(|scheduled.value|));
  }

  // ---------------------------------------------------------------- import_tasks_to_clockify

  /** The dictionary `import_tasks_to_clockify` returns. */
  datatype ImportResult = ImportResult(success: bool, imported: nat, failed: nat, errors: seq<string>)

  /** What Clockify's `create_time_entry` answers for a task: whether it was created, and a message. */
  type Creator = (string, string, string, string) -> (bool, string)

  function Created(create: Creator, t: Task): bool {
    create(t.date, t.start, t.end, t.description).0
  }

  /** The number of tasks Clockify accepts. */
  function ImportedCount(tasks: seq<Task>, create: Creator): (n: nat)
    ensures n <= |tasks|
  {
    if tasks == [] then 0
    else ImportedCount(tasks[..|tasks| - 1], create) + (if Created(create, tasks[|tasks| - 1]) then 1 else 0)
  }

  /** Some task was imported exactly when Clockify accepted one of them. */
  lemma {:induction false} ImportedSome(tasks: seq<Task>, create: Creator)
    ensures ImportedCount(tasks, create) > 0 <==> exists i :: 0 <= i < |tasks| && Created(create, tasks[i])
  {
    if tasks != [] {
      var front := tasks[..|tasks| - 1];
      ImportedSome(front, create);
      assert forall i :: 0 <= i < |front| ==> front[i] == tasks[i];
    }
  }

  /** One message per task Clockify refuses, in task order. */
  function FailureMessages(tasks: seq<Task>, create: Creator): seq<string> {
    if tasks == [] then []
    else
      var last := tasks[|tasks| - 1];
      var reply := create(last.date, last.start, last.end, last.description);
      FailureMessages(tasks[..|tasks| - 1], create) + (if reply.0 then [] else ["Failed to import task: " + reply.1])
  }

  /** Importing two batches one after the other counts as importing them together. */
  lemma {:induction false} ImportedConcat(a: seq<Task>, b: seq<Task>, create: Creator)
    ensures ImportedCount(a + b, create) == ImportedCount(a, create) + ImportedCount(b, create)
    decreases |b|
  {
    if b == [] {
      assert a + b == a;
    } else {
      var front, last := b[..|b| - 1], b[|b| - 1];
      var ab := a + b;
      assert ab[..|ab| - 1] == a + front && ab[|ab| - 1] == last;
      ImportedConcat(a, front, create);
      var k := if Created(create, last) then 1 else 0;
      calc {
        ImportedCount(ab, create);
        ImportedCount(ab[..|ab| - 1], create) + k;
        ImportedCount(a + front, create) + k;
        ImportedCount(a, create) + ImportedCount(front, create) + k;
      }
    }
  }

  /** Importing two batches one after the other reports the failures of the first, then those of the second. */
  lemma {:induction false} FailuresConcat(a: seq<Task>, b: seq<Task>, create: Creator)
    ensures FailureMessages(a + b, create) == FailureMessages(a, create) + FailureMessages(b, create)
    decreases |b|
  {
    if b == [] {
      assert a + b == a;
    } else {
      var front, last := b[..|b| - 1], b[|b| - 1];
      var ab := a + b;
      assert ab[..|ab| - 1] == a + front && ab[|ab| - 1] == last;
      FailuresConcat(a, front, create);
      var reply := create(last.date, last.start, last.end, last.description);
      var more := if reply.0 then [] else ["Failed to import task: " + reply.1];
      calc {
        FailureMessages(ab, create);
        FailureMessages(ab[..|ab| - 1], create) + more;
        FailureMessages(a + front, create) + more;
        FailureMessages(a, create) + FailureMessages(front, create) + more;
        FailureMessages(a, create) + (FailureMessages(front, create) + more);
      }
    }
  }

  /**
   * `import_tasks_to_clockify`: every task counted once, as imported or as failed with its
   * message; the import succeeds when at least one task was imported.
   */
  method ImportTasks(tasks: seq<Task>, create: Creator) returns (r: ImportResult)
    ensures r.imported == ImportedCount(tasks, create)
    ensures r.errors == FailureMessages(tasks, create)
    ensures r.imported + r.failed == |tasks| && |r.errors| == r.failed
    ensures r.success <==> exists i :: 0 <= i < |tasks| && Created(create, tasks[i])
  {
    r := ImportResult(false, 0, 0, []);
    for i := 0 to |tasks|
      invariant r.imported == ImportedCount(tasks[..i], create)
      invariant r.errors == FailureMessages(tasks[..i], create)
      invariant r.imported + r.failed == i && |r.errors| == r.failed
    {
      var t := tasks[i];
      assert tasks[..i + 1][..i] == tasks[..i];
      var reply := create(t.date, t.start, t.end, t.description);
      if reply.0 {
        r := r.(imported := r.imported + 1);
      } else {
        r := r.(failed := r.failed + 1, errors := r.errors + ["Failed to import task: " + reply.1]);
      }
    }
    assert tasks[..|tasks|] == tasks;
    ImportedSome(tasks, create);
    r := r.(success := r.imported > 0);
  }
}
