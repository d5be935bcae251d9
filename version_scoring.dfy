/**
 * The version-aware model scoring of the dynamic-selection demonstration: the first
 * `digits.digits` in a model name gives a version score, to which bonuses for
 * "thinking" variants, model types and experimental releases are added; the demo
 * then ranks a table of names by score, highest first.
 */
module VersionScoring {
  import opened Results
  import opened Text
  import opened Pattern
  import opened Sorting

  /** `(\d+)\.(\d+)` */
  const VersionPattern: seq<Piece> := [Number, Lit("."), Number]

  datatype Version = Version(major: nat, minor: nat)

  /** The layout of a greedy match of `VersionPattern` at `i`: digits up to `k`, a dot, digits up to `l`. */
  predicate VersionLayout(s: string, i: nat, k: nat, l: nat) {
    && i < k < |s| && k + 1 < l <= |s|
    && AllDigits(s[i..k]) && s[k] == '.' && AllDigits(s[k + 1..l])
    && (l == |s| || !IsDigit(s[l]))
  }

  lemma VersionMatchLayout(s: string, i: nat)
    requires i <= |s| && MatchAt(s, i, VersionPattern).Some?
    ensures var k := RunEnd(s, i, IsDigit); k < |s| && VersionLayout(s, i, k, RunEnd(s, k + 1, IsDigit))
  {
    var k := RunEnd(s, i, IsDigit);
    assert VersionPattern[0] == Number && VersionPattern[1..] == [Lit("."), Number];
    var rest := MatchAt(s, k, VersionPattern[1..]);
    assert rest.Some?;
    assert k + 1 <= |s| && s[k..k + 1] == ".";
    assert s[k] == s[k..k + 1][0];
    assert VersionPattern[1..][1..] == [Number];
    assert MatchAt(s, k + 1, [Number]).Some?;
  }

  /** The major and minor numbers of the first `(\d+)\.(\d+)` in `name`, as `re.search` finds them. */
  function FindVersion(name: string): (r: Option<Version>)
    ensures r.Some? <==> Search(name, VersionPattern).Some?
  {
    var f := Search(name, VersionPattern);
    if f.None? then None
    else
      var i := f.value.start;
      VersionMatchLayout(name, i);
      var k := RunEnd(name, i, IsDigit);
      Some(Version(DigitsValue(name[i..k]), DigitsValue(name[k + 1..RunEnd(name, k + 1, IsDigit)])))
  }

  /** `VersionPattern` has a `\d+` followed only by a literal dot: greedy matching is the regular expression's. */
  lemma VersionPatternSeparated()
    ensures Separated(VersionPattern)
  {
    assert Follows(VersionPattern[0], VersionPattern[1]);
    assert Follows(VersionPattern[1], VersionPattern[2]);
  }

  /** The search finds a version exactly when the regular expression matches somewhere in the name. */
  lemma FindVersionIsRegexSearch(name: string)
    ensures FindVersion(name).Some? <==> exists i :: 0 <= i <= |name| && Matches(name, i, VersionPattern)
  {
    VersionPatternSeparated();
    var f := Search(name, VersionPattern);
    if f.Some? {
      GreedyMatchIsComplete(name, f.value.start, VersionPattern);
    } else {
      forall i | 0 <= i <= |name| ensures !Matches(name, i, VersionPattern) {
        GreedyMatchIsComplete(name, i, VersionPattern);
      }
    }
  }

  /** A name with no digit in it has no version. */
  lemma NoVersion(name: string)
    requires forall i :: 0 <= i < |name| ==> !IsDigit(name[i])
    ensures FindVersion(name).None?
  {
    var f := Search(name, VersionPattern);
    if f.Some? {
      VersionMatchLayout(name, f.value.start);
    }
  }

  /**
   * A name made of a digit-free prefix, `major.minor` and a rest that does not start with
   * a digit has exactly that version.
   */
  lemma VersionIn(name: string, pre: string, major: string, minor: string, post: string)
    requires name == pre + major + "." + minor + post
    requires major != [] && AllDigits(major) && minor != [] && AllDigits(minor)
    requires forall q :: 0 <= q < |pre| ==> !IsDigit(pre[q])
    requires post == [] || !IsDigit(post[0])
    ensures FindVersion(name) == Some(Version(DigitsValue(major), DigitsValue(minor)))
  {
    var i, k, l := |pre|, |pre| + |major|, |pre| + |major| + 1 + |minor|;
    assert name[..i] == pre && name[i..k] == major && name[k] == '.' && name[k + 1..l] == minor;
    if l < |name| {
      assert name[l] == post[0];
    }
    forall q: nat | q < i ensures !IsDigit(name[q]) {
      assert name[q] == pre[q];
    }
    VersionFromLayout(name, i, k, l);
  }

  /** A version layout with no digit before it is the version found. */
  lemma VersionFromLayout(s: string, i: nat, k: nat, l: nat)
    requires VersionLayout(s, i, k, l)
    requires forall q: nat :: q < i ==> !IsDigit(s[q])
    ensures FindVersion(s) == Some(Version(DigitsValue(s[i..k]), DigitsValue(s[k + 1..l])))
  {
    LayoutMatches(s, i, k, l);
    NoMatchBefore(s, i);
  }

  /** The greedy match on a version layout finds its two digit runs. */
  lemma LayoutMatches(s: string, i: nat, k: nat, l: nat)
    requires VersionLayout(s, i, k, l)
    ensures RunEnd(s, i, IsDigit) == k && RunEnd(s, k + 1, IsDigit) == l
    ensures MatchAt(s, i, VersionPattern).Some?
  {
    forall j | i <= j < k ensures IsDigit(s[j]) {
      assert s[j] == s[i..k][j - i];
    }
    RunTo(s, i, k, IsDigit);
    forall j | k + 1 <= j < l ensures IsDigit(s[j]) {
      assert s[j] == s[k + 1..l][j - k - 1];
    }
    RunTo(s, k + 1, l, IsDigit);
    assert VersionPattern[0] == Number && VersionPattern[1..] == [Lit("."), Number];
    assert s[k..k + 1] == ".";
    assert VersionPattern[1..][1..] == [Number];
  }

  /** When no digit comes before `i` and a version layout starts at `i`, the search stops at `i`. */
  lemma NoMatchBefore(s: string, i: nat)
    requires i <= |s| && MatchAt(s, i, VersionPattern).Some?
    requires forall q: nat :: q < i ==> !IsDigit(s[q])
    ensures Search(s, VersionPattern).Some? && Search(s, VersionPattern).value.start == i
  {
    var f := Search(s, VersionPattern);
    if f.value.start < i {
      VersionMatchLayout(s, f.value.start);
    }
  }

  /** A run of `p` that is followed by a character outside `p` (or the end) ends there. */
  lemma {:induction false} RunTo(s: string, i: nat, k: nat, p: char -> bool)
    requires i <= k <= |s|
    requires forall j :: i <= j < k ==> p(s[j])
    requires k == |s| || !p(s[k])
    ensures RunEnd(s, i, p) == k
    decreases k - i
  {
    if i < k {
      RunTo(s, i + 1, k, p);
    }
  }

  /** The score of a found version: a thousand per major, a hundred per minor, and a generation bonus. */
  function VersionPoints(v: Version): (r: nat)
    ensures r >= v.major * 1000 + v.minor * 100
    ensures r <= v.major * 1000 + v.minor * 100 + 500
  {
    v.major * 1000 + v.minor * 100 + (if v.major >= 4 then 500 else if v.major >= 3 then 200 else 0)
  }

  /** `extract_version_score`: the version's points; without a version only `gemini-pro` scores, with 100. */
  function VersionScore(name: string): (r: nat)
    ensures FindVersion(name).None? ==> (r == 100 <==> name == "gemini-pro") && (r == 0 <==> name != "gemini-pro")
  {
    match FindVersion(name)
    case Some(v) => VersionPoints(v)
    case None =>
      ContainsSplit("gemini-pro", "gemini-", "pro", "");
      if Contains(name, "pro") && name == "gemini-pro" then 100 else 0
  }

  /** While minors stay single digits, version points order versions by (major, minor). */
  lemma VersionPointsOrder(a: Version, b: Version)
    requires a.minor < 10 && b.minor < 10
    ensures VersionPoints(a) < VersionPoints(b) <==> a.major < b.major || (a.major == b.major && a.minor < b.minor)
  {
    if a.major < b.major {
      assert a.major * 1000 + 1000 <= b.major * 1000;
    } else if b.major < a.major {
      assert b.major * 1000 + 1000 <= a.major * 1000;
    }
  }

  /** The model-type bonus: ultra before pro before flash before advanced. */
  function TypeBonus(name: string): (r: nat)
    ensures r in {0, 300, 350, 400, 500}
    ensures r == 500 <==> Contains(name, "ultra")
    ensures r == 400 <==> !Contains(name, "ultra") && Contains(name, "pro")
    ensures r == 0 <==> !(Contains(name, "ultra") || Contains(name, "pro") || Contains(name, "flash") || Contains(name, "advanced"))
  {
    if Contains(name, "ultra") then 500
    else if Contains(name, "pro") then 400
    else if Contains(name, "flash") then 300
    else if Contains(name, "advanced") then 350
    else 0
  }

  /** The experimental bonus. */
  function ExpBonus(name: string): (r: nat)
    ensures r == 200 <==> Contains(name, "exp")
    ensures r == 0 <==> !Contains(name, "exp")
  {
    ExperimentalContainsExp(name);
    if Contains(name, "exp") || Contains(name, "experimental") then 200 else 0
  }

  /** The test for "experimental" adds nothing: every name containing it contains "exp". */
  lemma ExperimentalContainsExp(name: string)
    ensures Contains(name, "experimental") ==> Contains(name, "exp")
  {
    if Contains(name, "experimental") {
      ContainsPrefix(name, "experimental", 3);
      assert "experimental"[..3] == "exp";
    }
  }

  function ThinkingBonus(name: string): (r: nat)
    ensures r == 10000 <==> Contains(name, "thinking")
    ensures r == 0 <==> !Contains(name, "thinking")
  {
    if Contains(name, "thinking") then 10000 else 0
  }

  /**
   * `score_model`: the bonuses summed over the lower-cased name. Apart from the thinking bonus,
   * a score stays between the version score and 700 more.
   */
  function ScoreModel(modelName: string): (r: nat)
    ensures var name := Lower(modelName);
      r == ThinkingBonus(name) + VersionScore(name) + TypeBonus(name) + ExpBonus(name)
    ensures var v := VersionScore(Lower(modelName));
      && (Contains(Lower(modelName), "thinking") ==> 10000 + v <= r <= 10000 + v + 700)
      && (!Contains(Lower(modelName), "thinking") ==> v <= r <= v + 700)
  {
    var name := Lower(modelName);
    ThinkingBonus(name) + VersionScore(name) + TypeBonus(name) + ExpBonus(name)
  }

  predicate IsThinking(modelName: string) {
    Contains(Lower(modelName), "thinking")
  }

  /** A thinking name outscores a name without "thinking" whose version score stays below 9300. */
  lemma ThinkingOutscores(a: string, b: string)
    requires IsThinking(a) && !IsThinking(b) && VersionScore(Lower(b)) < 9300
    ensures ScoreModel(a) > ScoreModel(b)
  {
  }

  /** Without that guard the bonus is not enough: a name at version 10.0 outranks a thinking name with none. */
  lemma ThinkingCanBeOutranked()
    ensures !IsThinking("gemini-10.0-pro") && IsThinking("gemini-thinking")
    ensures ScoreModel("gemini-10.0-pro") > ScoreModel("gemini-thinking")
  {
    Gemini100ProScore("gemini-10.0-pro");
    GeminiThinkingScore("gemini-thinking");
  }

  /** One row of the demo's ranking: the name, its score and whether it is a thinking model. */
  datatype Scored = Scored(name: string, score: int, thinking: bool)

  function Entry(name: string): (e: Scored)
    ensures e.name == name && e.score == ScoreModel(name) && (e.thinking <==> IsThinking(name))
  {
    Scored(name, ScoreModel(name), IsThinking(name))
  }

  function Entries(names: seq<string>): (r: seq<Scored>)
    ensures |r| == |names| && forall i :: 0 <= i < |names| ==> r[i] == Entry(names[i])
  {
    seq(|names|, i requires 0 <= i < |names| => Entry(names[i]))
  }

  /** `key=lambda x: x['score'], reverse=True`: a higher score comes first. */
  predicate ByScore(a: Scored, b: Scored) {
    a.score > b.score
  }

  lemma ByScoreOrder()
    ensures StrictWeakOrder(ByScore)
  {
  }

  /** The demo's loop: score every model in listing order, then sort the rows in place by score, highest first. */
  method RankModels(names: seq<string>) returns (ranked: seq<Scored>)
    ensures ranked == StableSort(Entries(names), ByScore)
  {
    var scored: seq<Scored> := [];
    for i := 0 to |names|
      invariant scored == Entries(names[..i])
    {
      scored := scored + [Entry(names[i])];
      assert names[..i + 1] == names[..i] + [names[i]];
    }
    assert names[..|names|] == names;
    var rows := new Scored[|scored|](k requires 0 <= k < |scored| => scored[k]);
    assert rows[..] == scored;
    SortInPlace(rows, ByScore);
    ranked := rows[..];
  }

  /** The ranking lists every scored row once and never puts a lower score before a higher one. */
  lemma RankingOrdered(names: seq<string>)
    ensures var r := StableSort(Entries(names), ByScore);
      && multiset(r) == multiset(Entries(names))
      && forall i, j :: 0 <= i < j < |r| ==> r[i].score >= r[j].score
  {
    ByScoreOrder();
    StableSortPermutes(Entries(names), ByScore);
    StableSortSorted(Entries(names), ByScore);
  }

  /**
   * "Thinking models always rank highest": every thinking row comes before every other row,
   * provided no model without "thinking" has a version score of 9300 or more.
   */
  lemma ThinkingRanksFirst(names: seq<string>)
    requires forall k :: 0 <= k < |names| && !IsThinking(names[k]) ==> VersionScore(Lower(names[k])) < 9300
    ensures var r := StableSort(Entries(names), ByScore);
      forall i, j :: 0 <= i < j < |r| && r[j].thinking ==> r[i].thinking
  {
    var r := StableSort(Entries(names), ByScore);
    RankingOrdered(names);
    forall i, j | 0 <= i < j < |r| && r[j].thinking ensures r[i].thinking {
      RowOfName(names, r, i);
      RowOfName(names, r, j);
    }
  }

  /** Every row of a permutation of the entries is the entry of one of the names. */
  lemma RowOfName(names: seq<string>, r: seq<Scored>, i: nat)
    requires multiset(r) == multiset(Entries(names)) && i < |r|
    ensures r[i].name in names && r[i] == Entry(r[i].name)
  {
    assert r[i] in multiset(Entries(names));
    var k :| 0 <= k < |names| && Entries(names)[k] == r[i];
  }

  /** The names the demonstration scores, each with the score it expects. */
  const TestModels: seq<(string, int)> := [
    ("gemini-1.5-pro", 1500 + 400),
    ("gemini-1.5-flash", 1500 + 300),
    ("gemini-2.0-flash-exp", 2000 + 300 + 200),
    ("gemini-2.0-flash-thinking-exp", 10000 + 2000 + 300 + 200),
    ("gemini-1.5-pro-thinking-exp", 10000 + 1500 + 400 + 200),
    ("gemini-2.5-ultra", 2500 + 500),
    ("gemini-3.0-pro", 3000 + 200 + 400),
    ("gemini-3.5-flash-thinking-exp", 10000 + 3500 + 200 + 300 + 200),
    ("gemini-4.0-ultra-thinking-exp", 10000 + 4000 + 500 + 500 + 200),
    ("gemini-5.0-pro-thinking-exp", 10000 + 5000 + 500 + 400 + 200),
    ("gemini-pro", 100 + 400),
    ("unknown-model", 0)
  ]

  function TestNames(): (names: seq<string>)
    ensures |names| == |TestModels| && forall i :: 0 <= i < |TestModels| ==> names[i] == TestModels[i].0
  {
    seq(|TestModels|, i requires 0 <= i < |TestModels| => TestModels[i].0)
  }

  /** Every name of the table scores exactly what the table expects. */
  lemma ExpectedScores()
    ensures forall i :: 0 <= i < |TestModels| ==> ScoreModel(TestModels[i].0) == TestModels[i].1
  {
    forall i | 0 <= i < |TestModels| ensures ScoreModel(TestModels[i].0) == TestModels[i].1 {
      TableRow(i);
    }
  }

  /** The score of row `i` of the table, and whether it is a thinking model. */
  lemma TableRow(i: nat)
    requires i < |TestModels|
    ensures ScoreModel(TestModels[i].0) == TestModels[i].1
    ensures IsThinking(TestModels[i].0) <==> TestModels[i].1 >= 10000
    ensures TestModels[i].1 <= 3600 || TestModels[i].1 >= 10000
  {
    var name := TestModels[i].0;
    if i == 0 { Gemini15ProScore(name); }
    else if i == 1 { Gemini15FlashScore(name); }
    else if i == 2 { Gemini20FlashExpScore(name); }
    else if i == 3 { Gemini20FlashThinkingExpScore(name); }
    else if i == 4 { Gemini15ProThinkingExpScore(name); }
    else if i == 5 { Gemini25UltraScore(name); }
    else if i == 6 { Gemini30ProScore(name); }
    else if i == 7 { Gemini35FlashThinkingExpScore(name); }
    else if i == 8 { Gemini40UltraThinkingExpScore(name); }
    else if i == 9 { Gemini50ProThinkingExpScore(name); }
    else if i == 10 { GeminiProScore(name); }
    else { UnknownModelScore(name); }
  }

  /** On the table, every thinking model is ranked above every other model. */
  lemma TableThinkingFirst()
    ensures var r := StableSort(Entries(TestNames()), ByScore);
      forall i, j :: 0 <= i < j < |r| && r[j].thinking ==> r[i].thinking
  {
    var names := TestNames();
    forall k | 0 <= k < |names| && !IsThinking(names[k]) ensures VersionScore(Lower(names[k])) < 9300 {
      TableGuard(k);
    }
    ThinkingRanksFirst(names);
  }

  /** No model of the table without "thinking" comes near the thinking bonus. */
  lemma TableGuard(k: nat)
    requires k < |TestModels| && !IsThinking(TestModels[k].0)
    ensures VersionScore(Lower(TestModels[k].0)) < 9300
  {
    TableRow(k);
  }

  /** The prefix of the versioned names below has no digit. */
  lemma GeminiPrefix()
    ensures forall q :: 0 <= q < |"gemini-"| ==> !IsDigit("gemini-"[q])
  {
  }

  /** The digits of version 10.0. */
  lemma TenPointOh()
    ensures AllDigits("10") && DigitsValue("10") == 10 && AllDigits("0") && DigitsValue("0") == 0
  {
    assert "10"[..1] == "1";
    assert "1"[..0] == "0"[..0] == [];
  }

  /** `VersionIn` for a one-digit major and a one-digit minor. */
  lemma SingleDigitVersion(name: string, pre: string, major: char, minor: char, post: string)
    requires name == pre + [major] + "." + [minor] + post
    requires IsDigit(major) && IsDigit(minor)
    requires forall q :: 0 <= q < |pre| ==> !IsDigit(pre[q])
    requires post == [] || !IsDigit(post[0])
    ensures FindVersion(name) == Some(Version(major as int - '0' as int, minor as int - '0' as int))
  {
    DigitValue([major]);
    DigitValue([minor]);
    VersionIn(name, pre, [major], [minor], post);
  }

  lemma Gemini15ProScore(a: string)
    requires a == "gemini-1.5-pro"
    ensures !IsThinking(a) && ScoreModel(a) == 1900
  {
    Gemini15ProChars(a);
    Gemini15ProParts(a);
    GeminiPrefix();
    LowerFixed(a);
    MissingChar(a, "thinking", 't');
    SingleDigitVersion(a, "gemini-", '1', '5', "-pro");
    MissingChar(a, "ultra", 'u');
    ContainsSplit(a, "gemini-1.5-", "pro", "");
    MissingChar(a, "exp", 'x');
  }

  lemma Gemini15ProChars(a: string)
    requires a == "gemini-1.5-pro"
    ensures forall i :: 0 <= i < |a| ==> !('A' <= a[i] <= 'Z') && a[i] != 't' && a[i] != 'u' && a[i] != 'x'
  {
  }

  lemma Gemini15ProParts(a: string)
    requires a == "gemini-1.5-pro"
    ensures a == "gemini-" + ['1'] + "." + ['5'] + "-pro"
    ensures a == "gemini-1.5-" + "pro" + ""
  {
  }

  lemma Gemini15FlashScore(a: string)
    requires a == "gemini-1.5-flash"
    ensures !IsThinking(a) && ScoreModel(a) == 1800
  {
    Gemini15FlashChars(a);
    Gemini15FlashParts(a);
    GeminiPrefix();
    LowerFixed(a);
    MissingChar(a, "thinking", 't');
    SingleDigitVersion(a, "gemini-", '1', '5', "-flash");
    MissingChar(a, "ultra", 'u');
    MissingChar(a, "pro", 'p');
    ContainsSplit(a, "gemini-1.5-", "flash", "");
    MissingChar(a, "exp", 'x');
  }

  lemma Gemini15FlashChars(a: string)
    requires a == "gemini-1.5-flash"
    ensures forall i :: 0 <= i < |a| ==> !('A' <= a[i] <= 'Z') && a[i] != 't' && a[i] != 'u' && a[i] != 'p' && a[i] != 'x'
  {
  }

  lemma Gemini15FlashParts(a: string)
    requires a == "gemini-1.5-flash"
    ensures a == "gemini-" + ['1'] + "." + ['5'] + "-flash"
    ensures a == "gemini-1.5-" + "flash" + ""
  {
  }

  lemma Gemini20FlashExpScore(a: string)
    requires a == "gemini-2.0-flash-exp"
    ensures !IsThinking(a) && ScoreModel(a) == 2500
  {
    Gemini20FlashExpChars(a);
    Gemini20FlashExpParts1(a);
    Gemini20FlashExpParts2(a);
    GeminiPrefix();
    LowerFixed(a);
    MissingChar(a, "thinking", 't');
    SingleDigitVersion(a, "gemini-", '2', '0', "-flash-exp");
    MissingChar(a, "ultra", 'u');
    MissingChar(a, "pro", 'r');
    ContainsSplit(a, "gemini-2.0-", "flash", "-exp");
    ContainsSplit(a, "gemini-2.0-flash-", "exp", "");
  }

  lemma Gemini20FlashExpChars(a: string)
    requires a == "gemini-2.0-flash-exp"
    ensures forall i :: 0 <= i < |a| ==> !('A' <= a[i] <= 'Z') && a[i] != 't' && a[i] != 'u' && a[i] != 'r'
  {
  }

  lemma Gemini20FlashExpParts1(a: string)
    requires a == "gemini-2.0-flash-exp"
    ensures a == "gemini-" + ['2'] + "." + ['0'] + "-flash-exp"
    ensures a == "gemini-2.0-" + "flash" + "-exp"
  {
  }

  lemma Gemini20FlashExpParts2(a: string)
    requires a == "gemini-2.0-flash-exp"
    ensures a == "gemini-2.0-flash-" + "exp" + ""
  {
  }

  lemma Gemini20FlashThinkingExpScore(a: string)
    requires a == "gemini-2.0-flash-thinking-exp"
    ensures IsThinking(a) && ScoreModel(a) == 12500
  {
    Gemini20FlashThinkingExpChars(a);
    Gemini20FlashThinkingExpParts1(a);
    Gemini20FlashThinkingExpParts2(a);
    GeminiPrefix();
    LowerFixed(a);
    ContainsSplit(a, "gemini-2.0-flash-", "thinking", "-exp");
    SingleDigitVersion(a, "gemini-", '2', '0', "-flash-thinking-exp");
    MissingChar(a, "ultra", 'u');
    MissingChar(a, "pro", 'r');
    ContainsSplit(a, "gemini-2.0-", "flash", "-thinking-exp");
    ContainsSplit(a, "gemini-2.0-flash-thinking-", "exp", "");
  }

  lemma Gemini20FlashThinkingExpChars(a: string)
    requires a == "gemini-2.0-flash-thinking-exp"
    ensures forall i :: 0 <= i < |a| ==> !('A' <= a[i] <= 'Z') && a[i] != 'u' && a[i] != 'r'
  {
  }

  lemma Gemini20FlashThinkingExpParts1(a: string)
    requires a == "gemini-2.0-flash-thinking-exp"
    ensures a == "gemini-2.0-flash-" + "thinking" + "-exp"
    ensures a == "gemini-" + ['2'] + "." + ['0'] + "-flash-thinking-exp"
  {
  }

  lemma Gemini20FlashThinkingExpParts2(a: string)
    requires a == "gemini-2.0-flash-thinking-exp"
    ensures a == "gemini-2.0-" + "flash" + "-thinking-exp"
    ensures a == "gemini-2.0-flash-thinking-" + "exp" + ""
  {
  }

  lemma Gemini15ProThinkingExpScore(a: string)
    requires a == "gemini-1.5-pro-thinking-exp"
    ensures IsThinking(a) && ScoreModel(a) == 12100
  {
    Gemini15ProThinkingExpChars(a);
    Gemini15ProThinkingExpParts1(a);
    Gemini15ProThinkingExpParts2(a);
    GeminiPrefix();
    LowerFixed(a);
    ContainsSplit(a, "gemini-1.5-pro-", "thinking", "-exp");
    SingleDigitVersion(a, "gemini-", '1', '5', "-pro-thinking-exp");
    MissingChar(a, "ultra", 'u');
    ContainsSplit(a, "gemini-1.5-", "pro", "-thinking-exp");
    ContainsSplit(a, "gemini-1.5-pro-thinking-", "exp", "");
  }

  lemma Gemini15ProThinkingExpChars(a: string)
    requires a == "gemini-1.5-pro-thinking-exp"
    ensures forall i :: 0 <= i < |a| ==> !('A' <= a[i] <= 'Z') && a[i] != 'u'
  {
  }

  lemma Gemini15ProThinkingExpParts1(a: string)
    requires a == "gemini-1.5-pro-thinking-exp"
    ensures a == "gemini-1.5-pro-" + "thinking" + "-exp"
    ensures a == "gemini-" + ['1'] + "." + ['5'] + "-pro-thinking-exp"
  {
  }

  lemma Gemini15ProThinkingExpParts2(a: string)
    requires a == "gemini-1.5-pro-thinking-exp"
    ensures a == "gemini-1.5-" + "pro" + "-thinking-exp"
    ensures a == "gemini-1.5-pro-thinking-" + "exp" + ""
  {
  }

  lemma Gemini25UltraScore(a: string)
    requires a == "gemini-2.5-ultra"
    ensures !IsThinking(a) && ScoreModel(a) == 3000
  {
    Gemini25UltraChars(a);
    Gemini25UltraParts(a);
    GeminiPrefix();
    LowerFixed(a);
    MissingChar(a, "thinking", 'h');
    SingleDigitVersion(a, "gemini-", '2', '5', "-ultra");
    ContainsSplit(a, "gemini-2.5-", "ultra", "");
    MissingChar(a, "exp", 'x');
  }

  lemma Gemini25UltraChars(a: string)
    requires a == "gemini-2.5-ultra"
    ensures forall i :: 0 <= i < |a| ==> !('A' <= a[i] <= 'Z') && a[i] != 'h' && a[i] != 'x'
  {
  }

  lemma Gemini25UltraParts(a: string)
    requires a == "gemini-2.5-ultra"
    ensures a == "gemini-" + ['2'] + "." + ['5'] + "-ultra"
    ensures a == "gemini-2.5-" + "ultra" + ""
  {
  }

  lemma Gemini30ProScore(a: string)
    requires a == "gemini-3.0-pro"
    ensures !IsThinking(a) && ScoreModel(a) == 3600
  {
    Gemini30ProChars(a);
    Gemini30ProParts(a);
    GeminiPrefix();
    LowerFixed(a);
    MissingChar(a, "thinking", 't');
    SingleDigitVersion(a, "gemini-", '3', '0', "-pro");
    MissingChar(a, "ultra", 'u');
    ContainsSplit(a, "gemini-3.0-", "pro", "");
    MissingChar(a, "exp", 'x');
  }

  lemma Gemini30ProChars(a: string)
    requires a == "gemini-3.0-pro"
    ensures forall i :: 0 <= i < |a| ==> !('A' <= a[i] <= 'Z') && a[i] != 't' && a[i] != 'u' && a[i] != 'x'
  {
  }

  lemma Gemini30ProParts(a: string)
    requires a == "gemini-3.0-pro"
    ensures a == "gemini-" + ['3'] + "." + ['0'] + "-pro"
    ensures a == "gemini-3.0-" + "pro" + ""
  {
  }

  lemma Gemini35FlashThinkingExpScore(a: string)
    requires a == "gemini-3.5-flash-thinking-exp"
    ensures IsThinking(a) && ScoreModel(a) == 14200
  {
    Gemini35FlashThinkingExpChars(a);
    Gemini35FlashThinkingExpParts1(a);
    Gemini35FlashThinkingExpParts2(a);
    GeminiPrefix();
    LowerFixed(a);
    ContainsSplit(a, "gemini-3.5-flash-", "thinking", "-exp");
    SingleDigitVersion(a, "gemini-", '3', '5', "-flash-thinking-exp");
    MissingChar(a, "ultra", 'u');
    MissingChar(a, "pro", 'r');
    ContainsSplit(a, "gemini-3.5-", "flash", "-thinking-exp");
    ContainsSplit(a, "gemini-3.5-flash-thinking-", "exp", "");
  }

  lemma Gemini35FlashThinkingExpChars(a: string)
    requires a == "gemini-3.5-flash-thinking-exp"
    ensures forall i :: 0 <= i < |a| ==> !('A' <= a[i] <= 'Z') && a[i] != 'u' && a[i] != 'r'
  {
  }

  lemma Gemini35FlashThinkingExpParts1(a: string)
    requires a == "gemini-3.5-flash-thinking-exp"
    ensures a == "gemini-3.5-flash-" + "thinking" + "-exp"
    ensures a == "gemini-" + ['3'] + "." + ['5'] + "-flash-thinking-exp"
  {
  }

  lemma Gemini35FlashThinkingExpParts2(a: string)
    requires a == "gemini-3.5-flash-thinking-exp"
    ensures a == "gemini-3.5-" + "flash" + "-thinking-exp"
    ensures a == "gemini-3.5-flash-thinking-" + "exp" + ""
  {
  }

  lemma Gemini40UltraThinkingExpScore(a: string)
    requires a == "gemini-4.0-ultra-thinking-exp"
    ensures IsThinking(a) && ScoreModel(a) == 15200
  {
    Gemini40UltraThinkingExpChars(a);
    Gemini40UltraThinkingExpParts1(a);
    Gemini40UltraThinkingExpParts2(a);
    GeminiPrefix();
    LowerFixed(a);
    ContainsSplit(a, "gemini-4.0-ultra-", "thinking", "-exp");
    SingleDigitVersion(a, "gemini-", '4', '0', "-ultra-thinking-exp");
    ContainsSplit(a, "gemini-4.0-", "ultra", "-thinking-exp");
    ContainsSplit(a, "gemini-4.0-ultra-thinking-", "exp", "");
  }

  lemma Gemini40UltraThinkingExpChars(a: string)
    requires a == "gemini-4.0-ultra-thinking-exp"
    ensures forall i :: 0 <= i < |a| ==> !('A' <= a[i] <= 'Z')
  {
  }

  lemma Gemini40UltraThinkingExpParts1(a: string)
    requires a == "gemini-4.0-ultra-thinking-exp"
    ensures a == "gemini-4.0-ultra-" + "thinking" + "-exp"
    ensures a == "gemini-" + ['4'] + "." + ['0'] + "-ultra-thinking-exp"
  {
  }

  lemma Gemini40UltraThinkingExpParts2(a: string)
    requires a == "gemini-4.0-ultra-thinking-exp"
    ensures a == "gemini-4.0-" + "ultra" + "-thinking-exp"
    ensures a == "gemini-4.0-ultra-thinking-" + "exp" + ""
  {
  }

  lemma Gemini50ProThinkingExpScore(a: string)
    requires a == "gemini-5.0-pro-thinking-exp"
    ensures IsThinking(a) && ScoreModel(a) == 16100
  {
    Gemini50ProThinkingExpChars(a);
    Gemini50ProThinkingExpParts1(a);
    Gemini50ProThinkingExpParts2(a);
    GeminiPrefix();
    LowerFixed(a);
    ContainsSplit(a, "gemini-5.0-pro-", "thinking", "-exp");
    SingleDigitVersion(a, "gemini-", '5', '0', "-pro-thinking-exp");
    MissingChar(a, "ultra", 'u');
    ContainsSplit(a, "gemini-5.0-", "pro", "-thinking-exp");
    ContainsSplit(a, "gemini-5.0-pro-thinking-", "exp", "");
  }

  lemma Gemini50ProThinkingExpChars(a: string)
    requires a == "gemini-5.0-pro-thinking-exp"
    ensures forall i :: 0 <= i < |a| ==> !('A' <= a[i] <= 'Z') && a[i] != 'u'
  {
  }

  lemma Gemini50ProThinkingExpParts1(a: string)
    requires a == "gemini-5.0-pro-thinking-exp"
    ensures a == "gemini-5.0-pro-" + "thinking" + "-exp"
    ensures a == "gemini-" + ['5'] + "." + ['0'] + "-pro-thinking-exp"
  {
  }

  lemma Gemini50ProThinkingExpParts2(a: string)
    requires a == "gemini-5.0-pro-thinking-exp"
    ensures a == "gemini-5.0-" + "pro" + "-thinking-exp"
    ensures a == "gemini-5.0-pro-thinking-" + "exp" + ""
  {
  }

  lemma GeminiProScore(a: string)
    requires a == "gemini-pro"
    ensures !IsThinking(a) && ScoreModel(a) == 500
  {
    GeminiProChars(a);
    GeminiProParts(a);
    assert a == "gemini-pro";
    LowerFixed(a);
    MissingChar(a, "thinking", 't');
    NoVersion(a);
    MissingChar(a, "ultra", 'u');
    ContainsSplit(a, "gemini-", "pro", "");
    MissingChar(a, "exp", 'x');
  }

  lemma GeminiProChars(a: string)
    requires a == "gemini-pro"
    ensures forall i :: 0 <= i < |a| ==> !('A' <= a[i] <= 'Z') && !IsDigit(a[i]) && a[i] != 't' && a[i] != 'u' && a[i] != 'x'
  {
  }

  lemma GeminiProParts(a: string)
    requires a == "gemini-pro"
    ensures a == "gemini-" + "pro" + ""
  {
  }

  lemma UnknownModelScore(a: string)
    requires a == "unknown-model"
    ensures !IsThinking(a) && ScoreModel(a) == 0
  {
    UnknownModelChars(a);
    assert a != "gemini-pro";
    LowerFixed(a);
    MissingChar(a, "thinking", 't');
    NoVersion(a);
    MissingChar(a, "ultra", 't');
    MissingChar(a, "pro", 'p');
    MissingChar(a, "flash", 'f');
    MissingChar(a, "advanced", 'a');
    MissingChar(a, "exp", 'x');
  }

  lemma UnknownModelChars(a: string)
    requires a == "unknown-model"
    ensures forall i :: 0 <= i < |a| ==> !('A' <= a[i] <= 'Z') && !IsDigit(a[i]) && a[i] != 't' && a[i] != 't' && a[i] != 'p' && a[i] != 'f' && a[i] != 'a' && a[i] != 'x'
  {
  }

  lemma Gemini100ProScore(a: string)
    requires a == "gemini-10.0-pro"
    ensures !IsThinking(a) && ScoreModel(a) == 10900
  {
    Gemini100ProChars(a);
    Gemini100ProParts(a);
    GeminiPrefix();
    LowerFixed(a);
    MissingChar(a, "thinking", 't');
    TenPointOh();
    VersionIn(a, "gemini-", "10", "0", "-pro");
    MissingChar(a, "ultra", 'u');
    ContainsSplit(a, "gemini-10.0-", "pro", "");
    MissingChar(a, "exp", 'x');
  }

  lemma Gemini100ProChars(a: string)
    requires a == "gemini-10.0-pro"
    ensures forall i :: 0 <= i < |a| ==> !('A' <= a[i] <= 'Z') && a[i] != 't' && a[i] != 'u' && a[i] != 'x'
  {
  }

  lemma Gemini100ProParts(a: string)
    requires a == "gemini-10.0-pro"
    ensures a == "gemini-" + "10" + "." + "0" + "-pro"
    ensures a == "gemini-10.0-" + "pro" + ""
  {
  }

  lemma GeminiThinkingScore(a: string)
    requires a == "gemini-thinking"
    ensures IsThinking(a) && ScoreModel(a) == 10000
  {
    GeminiThinkingChars(a);
    GeminiThinkingParts(a);
    assert a != "gemini-pro";
    LowerFixed(a);
    ContainsSplit(a, "gemini-", "thinking", "");
    NoVersion(a);
    MissingChar(a, "ultra", 'u');
    MissingChar(a, "pro", 'p');
    MissingChar(a, "flash", 'f');
    MissingChar(a, "advanced", 'a');
    MissingChar(a, "exp", 'x');
  }

  lemma GeminiThinkingChars(a: string)
    requires a == "gemini-thinking"
    ensures forall i :: 0 <= i < |a| ==> !('A' <= a[i] <= 'Z') && !IsDigit(a[i]) && a[i] != 'u' && a[i] != 'p' && a[i] != 'f' && a[i] != 'a' && a[i] != 'x'
  {
  }

  lemma GeminiThinkingParts(a: string)
    requires a == "gemini-thinking"
    ensures a == "gemini-" + "thinking" + ""
  {
  }
}
