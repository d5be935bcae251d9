/**
 * The Gemini client's deterministic parts: the substring score that ranks the models the
 * service lists, the choice of the best one, the first-success search over a fixed list
 * of fallback names, the task prompt built from commits, and how a reply becomes a result.
 * The service itself is a parameter: the models it lists, and what each name answers.
 */
module Gemini {
  import opened Results
  import opened Text
  import opened Sorting

  /** A model as the service lists it: its name and the generation methods it supports. */
  datatype ModelInfo = ModelInfo(name: string, methods: seq<string>)

  /** A commit as the prompt uses it. */
  datatype Commit = Commit(date: string, message: string, author: string)

  /** What a test query to a model name does: the model cannot be created, the query raises, or it replies. */
  datatype Probe = Unavailable | Failed | Replied(text: string)

  /** What a generation request returns: nothing, a reply text, or an exception message. */
  datatype Reply = NoResponse | Text(text: string) | Raised(error: string)

  // ---------------------------------------------------------------- scoring

  predicate IsThinking(modelName: string) {
    Contains(Lower(modelName), "thinking")
  }

  /** The version points: the first of "2.0", "1.5", "1.0" found in the name decides. */
  function VersionPoints(name: string): (r: nat)
    ensures r == 100 <==> Contains(name, "2.0")
    ensures r == 80 <==> !Contains(name, "2.0") && Contains(name, "1.5")
    ensures r == 60 <==> !Contains(name, "2.0") && !Contains(name, "1.5") && Contains(name, "1.0")
    ensures r == 0 <==> !Contains(name, "2.0") && !Contains(name, "1.5") && !Contains(name, "1.0")
  {
    if Contains(name, "2.0") then 100
    else if Contains(name, "1.5") then 80
    else if Contains(name, "1.0") then 60
    else 0
  }

  /** The type points: "pro" before "flash". */
  function TypePoints(name: string): (r: nat)
    ensures r == 40 <==> Contains(name, "pro")
    ensures r == 30 <==> !Contains(name, "pro") && Contains(name, "flash")
    ensures r == 0 <==> !Contains(name, "pro") && !Contains(name, "flash")
  {
    if Contains(name, "pro") then 40
    else if Contains(name, "flash") then 30
    else 0
  }

  /** `score_model`: the points of the lower-cased name. */
  function ScoreModel(modelName: string): (r: nat)
    ensures r <= 1160
    ensures r >= 1000 <==> IsThinking(modelName)
  {
    var name := Lower(modelName);
    (if Contains(name, "thinking") then 1000 else 0)
      + VersionPoints(name)
      + TypePoints(name)
      + (if Contains(name, "exp") || Contains(name, "experimental") then 20 else 0)
  }

  /** The bonuses add up independently: the score is the sum of the four parts of the lower-cased name. */
  lemma ScoreParts(modelName: string)
    ensures var name := Lower(modelName);
      ScoreModel(modelName)
        == (if IsThinking(modelName) then 1000 else 0) + VersionPoints(name) + TypePoints(name)
         + (if Contains(name, "exp") then 20 else 0)
  {
    var name := Lower(modelName);
    if Contains(name, "experimental") {
      ContainsPrefix(name, "experimental", 3);
      assert "experimental"[..3] == "exp";
    }
  }

  /** Every thinking model outscores every model without "thinking". */
  lemma ThinkingOutscores(a: string, b: string)
    requires IsThinking(a) && !IsThinking(b)
    ensures ScoreModel(a) > ScoreModel(b)
  {
  }

  /** Candidates are compared by score, highest first (`sorted(..., key=score_model, reverse=True)`). */
  predicate ByScore(a: string, b: string) {
    ScoreModel(a) > ScoreModel(b)
  }

  lemma ByScoreOrder()
    ensures StrictWeakOrder(ByScore)
  {
  }

  // ---------------------------------------------------------------- the best model

  /** The names of the listed models that support `generateContent`, in listing order. */
  function Candidates(models: seq<ModelInfo>): (r: seq<string>)
    ensures |r| <= |models|
  {
    if models == [] then []
    else
      var last := models[|models| - 1];
      Candidates(models[..|models| - 1]) + (if "generateContent" in last.methods then [last.name] else [])
  }

  /** A name is a candidate exactly when some listed model of that name supports `generateContent`. */
  lemma {:induction false} CandidatesExactly(models: seq<ModelInfo>, name: string)
    ensures name in Candidates(models)
        <==> exists m :: m in models && m.name == name && "generateContent" in m.methods
  {
    if models != [] {
      var front, last := models[..|models| - 1], models[|models| - 1];
      CandidatesExactly(front, name);
      assert models == front + [last];
      if exists m :: m in models && m.name == name && "generateContent" in m.methods {
        var m :| m in models && m.name == name && "generateContent" in m.methods;
        if m != last {
          assert m in front;
        }
      }
    }
  }

  /** `_get_best_model`: collect the candidates in a loop, rank them, and take the first. */
  method GetBestModel(models: seq<ModelInfo>) returns (best: Option<string>)
    ensures best.None? <==> Candidates(models) == []
    ensures best.Some? ==> best == Some(StableSort(Candidates(models), ByScore)[0])
    ensures best.Some? ==> best.value in Candidates(models)
    ensures best.Some? ==> forall n :: n in Candidates(models) ==> ScoreModel(n) <= ScoreModel(best.value)
  {
    var available: seq<string> := [];
    for i := 0 to |models|
      invariant available == Candidates(models[..i])
    {
      assert models[..i + 1][..i] == models[..i];
      if "generateContent" in models[i].methods {
        available := available + [models[i].name];
      }
    }
    assert models[..|models|] == models;
    if available == [] {
      return None;
    }
    var ranked := StableSort(available, ByScore);
    best := Some(ranked[0]);
    BestModelIsFirstMaximal(models);
  }

  /**
   * The chosen model has the highest score of all candidates, and it is the first candidate
   * in listing order with that score: every candidate listed before it scores less.
   */
  lemma BestModelIsFirstMaximal(models: seq<ModelInfo>)
    requires Candidates(models) != []
    ensures var c := Candidates(models);
      var best := StableSort(c, ByScore)[0];
      && best in c
      && (forall n :: n in c ==> ScoreModel(n) <= ScoreModel(best))
      && exists k :: 0 <= k < |c| && c[k] == best && forall j :: 0 <= j < k ==> ScoreModel(c[j]) < ScoreModel(best)
  {
    ByScoreOrder();
    StableSortFirst(Candidates(models), ByScore);
  }

  // ---------------------------------------------------------------- the fallback search

  /** The names tried, in order, when the best model cannot be used. */
  const FallbackModels: seq<string> := [
    "gemini-2.0-flash-thinking-exp",
    "gemini-2.0-flash-exp",
    "gemini-1.5-pro",
    "gemini-1.5-flash",
    "gemini-pro"
  ]

  /** A test reply counts when there is one and its text is not empty. */
  predicate Answers(p: Probe) {
    p.Replied? && p.text != []
  }

  /**
   * The outcome of trying `names` in order: whether one answered, and the model the client
   * holds afterwards. Every name that could be created replaces the held model, whether or
   * not its test then succeeds.
   */
  function Fallback(names: seq<string>, outcome: string -> Probe, held: Option<string>): (r: (bool, Option<string>))
  {
    if names == [] then (false, held)
    else if outcome(names[0]).Unavailable? then Fallback(names[1..], outcome, held)
    else if Answers(outcome(names[0])) then (true, Some(names[0]))
    else Fallback(names[1..], outcome, Some(names[0]))
  }

  /**
   * The search succeeds exactly when some name answers, and then the client holds the first
   * name that answers.
   */
  lemma {:induction false} FallbackFirstSuccess(names: seq<string>, outcome: string -> Probe, held: Option<string>)
    ensures Fallback(names, outcome, held).0 <==> exists i :: 0 <= i < |names| && Answers(outcome(names[i]))
    ensures Fallback(names, outcome, held).0 ==>
      exists i :: 0 <= i < |names| && Answers(outcome(names[i])) && Fallback(names, outcome, held).1 == Some(names[i])
        && forall j :: 0 <= j < i ==> !Answers(outcome(names[j]))
  {
    if names != [] {
      var rest := names[1..];
      if !Answers(outcome(names[0])) {
        var h := if outcome(names[0]).Unavailable? then held else Some(names[0]);
        FallbackFirstSuccess(rest, outcome, h);
        assert forall i :: 1 <= i < |names| ==> names[i] == rest[i - 1];
        if Fallback(names, outcome, held).0 {
          var i :| 0 <= i < |rest| && Answers(outcome(rest[i])) && Fallback(rest, outcome, h).1 == Some(rest[i])
            && forall j :: 0 <= j < i ==> !Answers(outcome(rest[j]));
          assert names[i + 1] == rest[i];
        }
        if exists i :: 0 <= i < |names| && Answers(outcome(names[i])) {
          var i :| 0 <= i < |names| && Answers(outcome(names[i]));
          assert Answers(outcome(rest[i - 1]));
        }
      }
    }
  }

  /** When every name fails, the client holds the last name that could be created, or what it held before. */
  lemma {:induction false} FallbackAllFail(names: seq<string>, outcome: string -> Probe, held: Option<string>)
    requires forall i :: 0 <= i < |names| ==> !Answers(outcome(names[i]))
    ensures Fallback(names, outcome, held) == (false, LastCreated(names, outcome, held))
  {
    if names != [] {
      var h := if outcome(names[0]).Unavailable? then held else Some(names[0]);
      assert forall i :: 0 <= i < |names[1..]| ==> names[1..][i] == names[i + 1];
      FallbackAllFail(names[1..], outcome, h);
      LastCreatedStep(names, outcome, held);
    }
  }

  /** The last name in `names` that could be created, or `held` if none could. */
  function LastCreated(names: seq<string>, outcome: string -> Probe, held: Option<string>): (r: Option<string>)
    ensures r == held || exists i :: 0 <= i < |names| && r == Some(names[i]) && !outcome(names[i]).Unavailable?
  {
    if names == [] then held
    else if outcome(names[|names| - 1]).Unavailable? then LastCreated(names[..|names| - 1], outcome, held)
    else Some(names[|names| - 1])
  }

  /** Consuming the first name: the last created name of the rest, starting from what the first left held. */
  lemma {:induction false} LastCreatedStep(names: seq<string>, outcome: string -> Probe, held: Option<string>)
    requires names != []
    ensures LastCreated(names, outcome, held)
         == LastCreated(names[1..], outcome, if outcome(names[0]).Unavailable? then held else Some(names[0]))
    decreases |names|
  {
    if |names| > 1 {
      var front := names[..|names| - 1];
      assert front[1..] == names[1..][..|names[1..]| - 1];
      LastCreatedStep(front, outcome, held);
    }
  }

  /** The client: the model it holds, if any. */
  class GeminiClient {
    var model: Option<string>

    /** `__init__` up to `_initialize_client`: a client that holds no model yet. */
    constructor ()
      ensures model.None?
    {
      model := None;
    }

    /** `_fallback_model_selection`: try the fixed names in order until one answers its test. */
    method FallbackModelSelection(outcome: string -> Probe) returns (ok: bool)
      modifies this
      ensures (ok, model) == Fallback(FallbackModels, outcome, old(model))
    {
      var i := 0;
      while i < |FallbackModels|
        invariant 0 <= i <= |FallbackModels|
        invariant Fallback(FallbackModels, outcome, old(model)) == Fallback(FallbackModels[i..], outcome, model)
      {
        var name := FallbackModels[i];
        assert FallbackModels[i..][1..] == FallbackModels[i + 1..];
        var probe := outcome(name);
        if !probe.Unavailable? {
          model := Some(name);
          if Answers(probe) {
            return true;
          }
        }
        i := i + 1;
      }
      return false;
    }

    /** `generate_task_list`: ask the held model with the task prompt, and map its reply. */
    method GenerateTaskList(commits: seq<Commit>, prefs: Option<PromptPrefs>, reply: string -> Reply) returns (r: Outcome)
      ensures model.None? ==> r == Outcome(false, "Gemini client not initialized")
      ensures model.Some? ==> r == ReplyOutcome(reply(TaskPrompt(commits, prefs)))
    {
      r := GenerateIn(TaskWording, commits, prefs, reply);
    }

    /** `generate_task_list` with the prompt in wording `w`. */
    method GenerateIn(w: Wording, commits: seq<Commit>, prefs: Option<PromptPrefs>, reply: string -> Reply) returns (r: Outcome)
      ensures model.None? ==> r == Outcome(false, "Gemini client not initialized")
      ensures model.Some? ==> r == ReplyOutcome(reply(PromptIn(w, commits, prefs)))
    {
      if model.None? {
        return Outcome(false, "Gemini client not initialized");
      }
      var prompt := BuildPromptIn(w, commits, prefs);
      r := ReplyOutcome(reply(prompt));
    }
  }

  /** The pair `generate_task_list` returns: whether there is a task list, and the list or an error message. */
  datatype Outcome = Outcome(ok: bool, text: string)

  /** What `generate_task_list` makes of the model's reply: its text when there is some, an error message otherwise. */
  function ReplyOutcome(r: Reply): (out: Outcome)
    ensures out.ok <==> r.Text? && r.text != []
    ensures out.ok ==> out.text == r.text
    ensures r.Raised? ==> out.text == "Error generating tasks: " + r.error
    ensures !out.ok && !r.Raised? ==> out.text == "Gemini returned empty response"
  {
    match r
    case Text(t) => if t != [] then Outcome(true, t) else Outcome(false, "Gemini returned empty response")
    case NoResponse => Outcome(false, "Gemini returned empty response")
    case Raised(e) => Outcome(false, "Error generating tasks: " + e)
  }

  /** The fallback search tries the thinking model first: when it answers, it is the one held. */
  lemma FallbackPrefersThinking(outcome: string -> Probe, held: Option<string>)
    requires Answers(outcome("gemini-2.0-flash-thinking-exp"))
    ensures Fallback(FallbackModels, outcome, held) == (true, Some("gemini-2.0-flash-thinking-exp"))
  {
    assert FallbackModels[0] == "gemini-2.0-flash-thinking-exp";
  }

  // ---------------------------------------------------------------- the task prompt

  /** The user preferences the prompt reads; either may be missing. */
  datatype PromptPrefs = PromptPrefs(dailyHours: Option<nat>, meetingsPerWeek: Option<nat>)

  function DailyHours(prefs: Option<PromptPrefs>): nat {
    if prefs.Some? && prefs.value.dailyHours.Some? then prefs.value.dailyHours.value else 8
  }

  function MeetingsPerWeek(prefs: Option<PromptPrefs>): nat {
    if prefs.Some? && prefs.value.meetingsPerWeek.Some? then prefs.value.meetingsPerWeek.value else 2
  }

  /** At most this many commits are listed. */
  const MaxPromptCommits: nat := 20

  /** The prompt's opening, up to the working hours; each row is one line of the text, cut into short pieces. */
  const IntroLines: seq<string> := [
    "\n",
    "Based on the following GitHub ", "commits, create a detailed ", "task list in CSV format ", "suitable for time tracking in ", "Clockify.\n",
    "\n",
    "Working parameters:\n",
    "- Daily working hours: "
  ]

  const HoursText: string := " hours\n- Weekly meetings: "

  /** From the meeting count to the commit list. */
  const MeetingsLines: seq<string> := [
    " meetings (30-40 minutes ", "each)\n",
    "- Estimate realistic time for ", "each development task\n",
    "\n",
    "GitHub Commits:\n"
  ]

  /** The instructions after the commit list. */
  const OutroLines: seq<string> := [
    "\n",
    "\n",
    "Please generate a CSV with ", "the following columns:\n",
    "date,start,end,description,", "projectName,taskName,billable\n",
    "\n",
    "Guidelines:\n",
    "- Break down commits into ", "logical development tasks\n",
    "- Estimate appropriate time ", "for each task (coding usually ", "takes 2-4 hours, testing 1-2 ", "hours, etc.)\n",
    "- Include code reviews, ", "testing, and documentation ", "time\n",
    "- Add the specified weekly ", "meetings\n",
    "- Use format: date ", "(YYYY-MM-DD), start (HH:MM), ", "end (HH:MM)\n",
    "- Make descriptions ", "professional and detailed\n",
    "- Set billable to true for ", "development work, false for ", "meetings\n",
    "- Spread tasks across working ", "days realistically\n",
    "\n",
    "Return ONLY the CSV data ", "without any additional text ", "or formatting.\n"
  ]

  /** The lines of a text block, one after the other. */
  function Concat(lines: seq<string>): string {
    if lines == [] then "" else lines[0] + Concat(lines[1..])
  }

  /** The fixed text of a prompt, around the two numbers and the commit list. */
  datatype Wording = Wording(intro: string, hours: string, meetings: string, outro: string)

  /** The wording `_build_task_prompt` uses. */
  const TaskWording: Wording := Wording(Concat(IntroLines), HoursText, Concat(MeetingsLines), Concat(OutroLines))

  /** One numbered commit line: `n. date - message (by author)`. */
  function CommitLine(n: nat, c: Commit): string {
    NatToString(n) + ". " + c.date + " - " + c.message + " (by " + c.author + ")\n"
  }

  /** The numbered lines of `commits`, the `k`-th numbered `k + 1`. */
  function CommitLines(commits: seq<Commit>): seq<string> {
    seq(|commits|, k requires 0 <= k < |commits| => CommitLine(k + 1, commits[k]))
  }

  /** The commits the prompt lists: the first 20. */
  function Listed(commits: seq<Commit>): seq<Commit> {
    commits[..Min(|commits|, MaxPromptCommits)]
  }

  function Min(a: nat, b: nat): nat {
    if a < b then a else b
  }

  /** The prompt's text before the commit list: the working hours and the meeting count filled in. */
  function PromptHead(w: Wording, prefs: Option<PromptPrefs>): string {
    w.intro + NatToString(DailyHours(prefs)) + w.hours + NatToString(MeetingsPerWeek(prefs)) + w.meetings
  }

  /** The prompt in wording `w`: the head, one line per listed commit, then the instructions. */
  function PromptIn(w: Wording, commits: seq<Commit>, prefs: Option<PromptPrefs>): string {
    PromptHead(w, prefs) + Concat(CommitLines(Listed(commits))) + w.outro
  }

  /** The prompt `_build_task_prompt` returns. */
  function TaskPrompt(commits: seq<Commit>, prefs: Option<PromptPrefs>): string {
    PromptIn(TaskWording, commits, prefs)
  }

  /** Appending one more line to a text block. */
  lemma {:induction false} ConcatSnoc(lines: seq<string>, line: string)
    ensures Concat(lines + [line]) == Concat(lines) + line
    decreases |lines|
  {
    if lines != [] {
      assert (lines + [line])[1..] == lines[1..] + [line];
      ConcatSnoc(lines[1..], line);
    }
  }

  /** A text block splits at any of its lines. */
  lemma {:induction false} ConcatSplit(lines: seq<string>, k: nat)
    requires k < |lines|
    ensures Concat(lines) == Concat(lines[..k]) + lines[k] + Concat(lines[k + 1..])
    decreases k
  {
    if k > 0 {
      ConcatSplit(lines[1..], k - 1);
      assert lines[1..][..k - 1] == lines[..k][1..];
      assert lines[1..][k..] == lines[k + 1..];
    } else {
      assert lines[..0] == [];
    }
  }

  /** One more commit adds one more numbered line. */
  lemma CommitLinesSnoc(commits: seq<Commit>, i: nat)
    requires i < |commits|
    ensures CommitLines(commits[..i + 1]) == CommitLines(commits[..i]) + [CommitLine(i + 1, commits[i])]
  {
    assert commits[..i + 1][..i] == commits[..i];
  }

  /** The loop of `_build_task_prompt`, in any wording: the head, one line appended per listed commit, then the instructions. */
  method BuildPromptIn(w: Wording, commits: seq<Commit>, prefs: Option<PromptPrefs>) returns (prompt: string)
    ensures prompt == PromptIn(w, commits, prefs)
  {
    prompt := PromptHead(w, prefs);
    var n := Min(|commits|, MaxPromptCommits);
    for i := 0 to n
      invariant prompt == PromptHead(w, prefs) + Concat(CommitLines(commits[..i]))
    {
      CommitLinesSnoc(commits, i);
      ConcatSnoc(CommitLines(commits[..i]), CommitLine(i + 1, commits[i]));
      prompt := prompt + CommitLine(i + 1, commits[i]);
    }
    prompt := prompt + w.outro;
  }

  /** `_build_task_prompt`. */
  method BuildTaskPrompt(commits: seq<Commit>, prefs: Option<PromptPrefs>) returns (prompt: string)
    ensures prompt == TaskPrompt(commits, prefs)
  {
    prompt := BuildPromptIn(TaskWording, commits, prefs);
  }

  /** Missing preferences read as 8 working hours and 2 meetings a week (in any wording, so in the task prompt's). */
  lemma PromptDefaults(w: Wording, commits: seq<Commit>, prefs: Option<PromptPrefs>)
    requires prefs.None? || prefs == Some(PromptPrefs(None, None))
    ensures PromptIn(w, commits, prefs) == PromptIn(w, commits, Some(PromptPrefs(Some(8), Some(2))))
  {
  }

  /** Commits after the twentieth never reach the prompt, in any wording. */
  lemma PromptIgnoresLaterCommits(w: Wording, commits: seq<Commit>, more: seq<Commit>, prefs: Option<PromptPrefs>)
    requires |commits| >= MaxPromptCommits
    ensures PromptIn(w, commits + more, prefs) == PromptIn(w, commits, prefs)
  {
    assert Listed(commits + more) == Listed(commits);
  }

  /** Each line of a text block appears in any text around the block. */
  lemma ListedBetween(head: string, lines: seq<string>, tail: string, k: nat)
    requires k < |lines|
    ensures Contains(head + Concat(lines) + tail, lines[k])
  {
    ConcatSplit(lines, k);
    var before := head + Concat(lines[..k]);
    var after := Concat(lines[k + 1..]) + tail;
    assert head + Concat(lines) + tail == before + lines[k] + after;
    ContainsSplit(head + Concat(lines) + tail, before, lines[k], after);
  }

  /** Each of the first 20 commits appears in the prompt as its own line, numbered from 1, in any wording. */
  lemma PromptListsCommit(w: Wording, commits: seq<Commit>, prefs: Option<PromptPrefs>, k: nat)
    requires k < Min(|commits|, MaxPromptCommits)
    ensures Contains(PromptIn(w, commits, prefs), CommitLine(k + 1, commits[k]))
  {
    ListedBetween(PromptHead(w, prefs), CommitLines(Listed(commits)), w.outro, k);
  }
}
