/**
 * The repository selector (select_repo.py): the accessible repositories sorted by owner
 * and name, each shown with the strongest permission it grants, a numbered menu answer
 * turned into a repository, and the `DEFAULT_GITHUB_REPO=` line of the key file
 * rewritten or added.
 *
 * The GitHub listing, the `input()` prompts and the key file are parameters: the model
 * works on the repositories fetched, one answer as typed, and the file's lines.
 */
module SelectRepo {
  import opened Results
  import opened Text
  import opened Sorting

  /** A repository record: owner, name, full name, and whether its permissions grant `admin` and `push` (a missing key is false). */
  datatype Repo = Repo(owner: string, name: string, fullName: string, admin: bool, push: bool)

  // ---------------------------------------------------------------- the listing

  /** The permission shown for a repository: the strongest one it grants. */
  function PermissionLabel(r: Repo): (shown: string)
    ensures shown == "admin" <==> r.admin
    ensures shown == "write" <==> !r.admin && r.push
    ensures shown == "read" <==> !r.admin && !r.push
  {
    if r.admin then "admin" else if r.push then "write" else "read"
  }

  /** The sort key `(owner, name)`. */
  function RepoKey(r: Repo): (string, string) {
    (r.owner, r.name)
  }

  /** `repos.sort(key=lambda x: (x['owner'], x['name']))` compares with tuple `<`. */
  predicate RepoLess(a: Repo, b: Repo) {
    PairLess(RepoKey(a), RepoKey(b))
  }

  lemma RepoOrder()
    ensures StrictWeakOrder(RepoLess)
  {
    forall a: Repo, b: Repo | RepoLess(a, b) ensures !RepoLess(b, a) {
      PairAsymmetric(RepoKey(a), RepoKey(b));
    }
    forall a: Repo, b: Repo, c: Repo | !RepoLess(a, b) && !RepoLess(b, c)
      ensures !RepoLess(a, c)
    {
      PairNotLessTransitive(RepoKey(a), RepoKey(b), RepoKey(c));
    }
  }

  /** The in-place sort of the fetched list. */
  method SortRepos(repos: array<Repo>)
    modifies repos
    ensures repos[..] == StableSort(old(repos[..]), RepoLess)
  {
    SortInPlace(repos, RepoLess);
  }

  /** The sorted list holds the same repositories, as often, in non-decreasing `(owner, name)` order. */
  lemma SortedRepos(repos: seq<Repo>)
    ensures multiset(StableSort(repos, RepoLess)) == multiset(repos)
    ensures var r := StableSort(repos, RepoLess);
      forall i, j :: 0 <= i < j < |r| ==> !PairLess(RepoKey(r[j]), RepoKey(r[i]))
  {
    RepoOrder();
    StableSortPermutes(repos, RepoLess);
    StableSortSorted(repos, RepoLess);
  }

  // ---------------------------------------------------------------- the menu

  /** What one answer to the menu prompt does. */
  datatype Choice = Quit | Picked(repo: Repo) | NotANumber | OutOfRange

  /**
   * One pass of the selection loop: `q` quits, a number `k` picks the `k`-th listed
   * repository, counting from 1; anything else asks again.
   */
  function Choose(repos: seq<Repo>, answer: string): (c: Choice)
    ensures var choice := Lower(Strip(answer));
      && (c == Quit <==> choice == "q")
      && (c == NotANumber <==> choice != "q" && ParseInt(choice).None?)
      && (c.Picked? <==> choice != "q" && ParseInt(choice).Some? && 1 <= ParseInt(choice).value <= |repos|)
      && (c.Picked? ==> c.repo == repos[ParseInt(choice).value - 1])
  {
    var choice := Lower(Strip(answer));
    if choice == "q" then Quit
    else
      match ParseInt(choice)
      case None => NotANumber
      case Some(k) => if 0 <= k - 1 < |repos| then Picked(repos[k - 1]) else OutOfRange
  }

  /** Typing the number the menu shows next to a repository picks that repository. */
  lemma MenuNumberPicks(repos: seq<Repo>, k: nat)
    requires 1 <= k <= |repos|
    ensures Choose(repos, NatToString(k)) == Picked(repos[k - 1])
  {
    var s := NatToString(k);
    assert Lower(Strip(s)) == s by {
      NatToStringIsDigitRun(k);
      StripDigits(s);
      LowerFixed(s);
    }
    assert s != "q" by {
      NatToStringIsDigitRun(k);
    }
    ParseIntOfNatToString(k);
  }

  // ---------------------------------------------------------------- the default repository

  /** The key the configuration reads the default repository from. */
  const DefaultKey: string := "DEFAULT_GITHUB_REPO="

  /** The line that sets the default repository to `name`. */
  function DefaultLine(name: string): string {
    DefaultKey + name + "\n"
  }

  /** The index of the first line from `i` on that sets the default repository, if any. */
  function FirstDefaultFrom(lines: seq<string>, i: nat): (r: Option<nat>)
    requires i <= |lines|
    ensures r.Some? ==> i <= r.value < |lines| && StartsWith(lines[r.value], DefaultKey)
    ensures r.Some? ==> forall j :: i <= j < r.value ==> !StartsWith(lines[j], DefaultKey)
    ensures r.None? ==> forall j :: i <= j < |lines| ==> !StartsWith(lines[j], DefaultKey)
    decreases |lines| - i
  {
    if i == |lines| then None
    else if StartsWith(lines[i], DefaultKey) then Some(i)
    else FirstDefaultFrom(lines, i + 1)
  }

  function FirstDefault(lines: seq<string>): Option<nat> {
    FirstDefaultFrom(lines, 0)
  }

  /**
   * The key file's lines after `update_default_repo`. One line changes at most: the first
   * default line when there is one (and the length stays), otherwise a new last line.
   */
  function UpdatedLines(lines: seq<string>, name: string): (out: seq<string>)
    ensures FirstDefault(lines).Some? ==> |out| == |lines| && out[FirstDefault(lines).value] == DefaultLine(name)
    ensures FirstDefault(lines).None? ==> |out| == |lines| + 1 && out[|lines|] == DefaultLine(name)
    ensures forall j :: 0 <= j < |lines| && FirstDefault(lines) != Some(j) ==> out[j] == lines[j]
  {
    match FirstDefault(lines)
    case Some(i) => lines[i := DefaultLine(name)]
    case None => lines + [DefaultLine(name)]
  }

  /** `update_default_repo`, between reading and writing the file: the loop that stops at the first match, then the append. */
  method UpdateDefaultRepo(lines: seq<string>, repoName: string) returns (out: seq<string>)
    ensures out == UpdatedLines(lines, repoName)
  {
    out := lines;
    var updated := false;
    var i := 0;
    while i < |out|
      invariant 0 <= i <= |out| == |lines|
      invariant !updated ==> out == lines && FirstDefault(lines) == FirstDefaultFrom(lines, i)
      invariant updated ==> out == UpdatedLines(lines, repoName)
      decreases |out| - i, if updated then 0 else 1
    {
      if StartsWith(out[i], DefaultKey) {
        out := out[i := DefaultLine(repoName)];
        updated := true;
        break;
      }
      i := i + 1;
    }
    if !updated {
      out := out + [DefaultLine(repoName)];
    }
  }

  /** A default line starts with the key. */
  lemma DefaultLineHasKey(name: string)
    ensures StartsWith(DefaultLine(name), DefaultKey)
  {
    assert DefaultLine(name)[..|DefaultKey|] == DefaultKey;
  }

  /**
   * Afterwards the first default line names the chosen repository. This is a statement about
   * the list of lines; `writelines` joins them with no separator, so when the last line has no
   * newline and no default line exists, the appended line ends up glued to it in the file.
   */
  lemma UpdateSetsDefault(lines: seq<string>, name: string)
    ensures var out := UpdatedLines(lines, name);
      FirstDefault(out).Some? && out[FirstDefault(out).value] == DefaultLine(name)
  {
    var out := UpdatedLines(lines, name);
    DefaultLineHasKey(name);
    match FirstDefault(lines)
    case Some(i) =>
      assert FirstDefault(out) == Some(i) by {
        FirstDefaultSame(lines, out, 0, i);
      }
    case None =>
      assert FirstDefault(out) == Some(|lines|) by {
        FirstDefaultSame(lines, out, 0, |lines|);
      }
  }

  /** Two line lists that agree before `k` and both have a default line at `k` have their first one at the same place. */
  lemma {:induction false} FirstDefaultSame(a: seq<string>, b: seq<string>, i: nat, k: nat)
    requires i <= k < |b| && k <= |a|
    requires forall j :: i <= j < k ==> a[j] == b[j]
    requires forall j :: i <= j < k ==> !StartsWith(a[j], DefaultKey)
    requires StartsWith(b[k], DefaultKey)
    ensures FirstDefaultFrom(b, i) == Some(k)
    decreases k - i
  {
    if i < k {
      FirstDefaultSame(a, b, i + 1, k);
    }
  }

  /** Setting the same default twice leaves the lines as setting it once. */
  lemma UpdateIdempotent(lines: seq<string>, name: string)
    ensures UpdatedLines(UpdatedLines(lines, name), name) == UpdatedLines(lines, name)
  {
    var out := UpdatedLines(lines, name);
    UpdateSetsDefault(lines, name);
    assert out[FirstDefault(out).value := DefaultLine(name)] == out;
  }
}
