/**
 * The regular expressions the date-range phrases are recognised with, and Python's
 * `re.search` over them.
 *
 * Each expression is a sequence of pieces: a literal word, `\s+` (one or more
 * whitespace characters) or `(\d+)` (one or more digits, captured). A trailing `s?`
 * never changes whether a search succeeds, nor where the capture is, so it is left out
 * of the pieces. In every expression here a `\s+` or `\d+` is followed by a piece that
 * cannot start with a character of its own class, so the backtracking search finds a
 * match exactly when taking each run greedily does (`GreedyMatchIsComplete`).
 */
module Pattern {
  import opened Results
  import opened Text

  datatype Piece = Lit(word: string) | Blanks | Number

  /** Where a match ends, and the text of the first `(\d+)` group if there is one. */
  datatype Capture = Capture(end: nat, group: Option<string>)

  /** The end of the run of characters satisfying `p` that starts at `i`. */
  function RunEnd(s: string, i: nat, p: char -> bool): (k: nat)
    requires i <= |s|
    ensures i <= k <= |s|
    ensures forall j :: i <= j < k ==> p(s[j])
    ensures k == |s| || !p(s[k])
    decreases |s| - i
  {
    if i < |s| && p(s[i]) then RunEnd(s, i + 1, p) else i
  }

  /** Matching `pat` at position `i`, each run taken as long as it goes. */
  function MatchAt(s: string, i: nat, pat: seq<Piece>): (r: Option<Capture>)
    requires i <= |s|
    ensures r.Some? ==> i <= r.value.end <= |s|
    ensures r.Some? && r.value.group.Some? ==> r.value.group.value != [] && AllDigits(r.value.group.value)
    decreases |pat|
  {
    if pat == [] then Some(Capture(i, None))
    else
      match pat[0]
      case Lit(w) =>
        if i + |w| <= |s| && s[i..i + |w|] == w then MatchAt(s, i + |w|, pat[1..]) else None
      case Blanks =>
        var k := RunEnd(s, i, IsSpace);
        if k == i then None else MatchAt(s, k, pat[1..])
      case Number =>
        var k := RunEnd(s, i, IsDigit);
        if k == i then None
        else
          var rest := MatchAt(s, k, pat[1..]);
          if rest.None? then None else Some(Capture(rest.value.end, Some(s[i..k])))
  }

  /** A match object: where the match starts, where it ends and what it captured. */
  datatype Found = Found(start: nat, capture: Capture)

  /** `re.search(pat, s)`, looking from position `i` on: the leftmost position where `pat` matches. */
  function SearchFrom(s: string, i: nat, pat: seq<Piece>): (r: Option<Found>)
    requires i <= |s|
    ensures r.Some? ==> i <= r.value.start <= |s| && MatchAt(s, r.value.start, pat) == Some(r.value.capture)
    ensures r.Some? ==> forall q :: i <= q < r.value.start ==> MatchAt(s, q, pat).None?
    ensures r.None? ==> forall q :: i <= q <= |s| ==> MatchAt(s, q, pat).None?
    decreases |s| - i
  {
    var m := MatchAt(s, i, pat);
    if m.Some? then Some(Found(i, m.value))
    else if i == |s| then None
    else SearchFrom(s, i + 1, pat)
  }

  function Search(s: string, pat: seq<Piece>): Option<Found> {
    SearchFrom(s, 0, pat)
  }

  /** Every `\s+` and `\d+` is followed by a piece that cannot start inside its run. */
  predicate Separated(pat: seq<Piece>) {
    forall n :: 0 <= n < |pat| - 1 ==> Follows(pat[n], pat[n + 1])
  }

  predicate Follows(a: Piece, b: Piece) {
    match a
    case Lit(_) => true
    case Blanks => (b.Lit? && b.word != [] && !IsSpace(b.word[0])) || b.Number?
    case Number => (b.Lit? && b.word != [] && !IsDigit(b.word[0])) || b.Blanks?
  }

  /** The characters `s[i..k]` all satisfy `p`. */
  predicate AllIn(s: string, i: nat, k: nat, p: char -> bool)
    requires i <= k <= |s|
  {
    forall j :: i <= j < k ==> p(s[j])
  }

  /** The regular-expression reading of `pat`: some way of cutting `s[i..]` fits the pieces. */
  ghost predicate Matches(s: string, i: nat, pat: seq<Piece>)
    requires i <= |s|
    decreases |pat|
  {
    if pat == [] then true
    else
      match pat[0]
      case Lit(w) => i + |w| <= |s| && s[i..i + |w|] == w && Matches(s, i + |w|, pat[1..])
      case Blanks => exists k :: i < k <= |s| && AllIn(s, i, k, IsSpace) && Matches(s, k, pat[1..])
      case Number => exists k :: i < k <= |s| && AllIn(s, i, k, IsDigit) && Matches(s, k, pat[1..])
  }

  /** The first character of a match of `piece` can be `c`. */
  predicate CanStart(piece: Piece, c: char) {
    match piece
    case Lit(w) => w == [] || w[0] == c
    case Blanks => IsSpace(c)
    case Number => IsDigit(c)
  }

  /** A match that does not end the text starts with a character its first piece allows. */
  lemma MatchStarts(s: string, k: nat, pat: seq<Piece>)
    requires k < |s| && pat != [] && Matches(s, k, pat)
    ensures CanStart(pat[0], s[k])
  {
    match pat[0]
    case Lit(w) =>
      if w != [] {
        assert s[k..k + |w|][0] == s[k];
      }
    case Blanks =>
      var k' :| k < k' <= |s| && AllIn(s, k, k', IsSpace) && Matches(s, k', pat[1..]);
    case Number =>
      var k' :| k < k' <= |s| && AllIn(s, k, k', IsDigit) && Matches(s, k', pat[1..]);
  }

  /** The regular-expression reading of a run of `p` characters followed by `rest`. */
  ghost predicate RunMatches(s: string, i: nat, rest: seq<Piece>, p: char -> bool)
    requires i <= |s|
  {
    exists k :: i < k <= |s| && AllIn(s, i, k, p) && Matches(s, k, rest)
  }

  /** Taking the run greedily is enough when `rest` cannot start inside the run. */
  lemma GreedyRun(s: string, i: nat, rest: seq<Piece>, p: char -> bool)
    requires i <= |s|
    requires rest != [] ==> forall c :: p(c) ==> !CanStart(rest[0], c)
    ensures var k := RunEnd(s, i, p); (k > i && Matches(s, k, rest)) <==> RunMatches(s, i, rest, p)
  {
    var k := RunEnd(s, i, p);
    if k > i && Matches(s, k, rest) {
      assert AllIn(s, i, k, p);
    }
    if RunMatches(s, i, rest, p) {
      var k' :| i < k' <= |s| && AllIn(s, i, k', p) && Matches(s, k', rest);
      RunCovers(s, i, k', p);
      if k' < k {
        assert p(s[k']);
        if rest != [] {
          MatchStarts(s, k', rest);
          assert false;
        }
      }
      if rest == [] {
        assert Matches(s, k, rest);
      }
    }
  }

  /**
   * For the expressions used here, greedy matching succeeds exactly when the regular
   * expression matches: backtracking into a shorter run never helps.
   */
  lemma {:induction false} GreedyMatchIsComplete(s: string, i: nat, pat: seq<Piece>)
    requires i <= |s| && Separated(pat)
    ensures MatchAt(s, i, pat).Some? <==> Matches(s, i, pat)
    decreases |pat|
  {
    if pat != [] {
      match pat[0]
      case Lit(w) =>
        if i + |w| <= |s| && s[i..i + |w|] == w {
          GreedyMatchIsComplete(s, i + |w|, pat[1..]);
        }
        SeparatedTail(pat);
      case Blanks =>
        SeparatedTail(pat);
        GreedyMatchIsComplete(s, RunEnd(s, i, IsSpace), pat[1..]);
        GreedyRunStep(s, i, pat, IsSpace);
      case Number =>
        SeparatedTail(pat);
        GreedyMatchIsComplete(s, RunEnd(s, i, IsDigit), pat[1..]);
        GreedyRunStep(s, i, pat, IsDigit);
    }
  }

  /** One `\s+` or `\d+` piece: greedy and regular-expression matching agree if they agree after the run. */
  lemma GreedyRunStep(s: string, i: nat, pat: seq<Piece>, p: char -> bool)
    requires i <= |s| && pat != [] && (pat[0].Blanks? || pat[0].Number?)
    requires p == if pat[0].Blanks? then IsSpace else IsDigit
    requires |pat| > 1 ==> Follows(pat[0], pat[1])
    requires MatchAt(s, RunEnd(s, i, p), pat[1..]).Some? <==> Matches(s, RunEnd(s, i, p), pat[1..])
    ensures MatchAt(s, i, pat).Some? <==> Matches(s, i, pat)
  {
    GreedyRun(s, i, pat[1..], p);
  }

  /** The pieces after the first are separated too, and follow the first. */
  lemma SeparatedTail(pat: seq<Piece>)
    requires pat != [] && Separated(pat)
    ensures Separated(pat[1..]) && (|pat| > 1 ==> Follows(pat[0], pat[1..][0]))
  {
    var rest := pat[1..];
    forall n | 0 <= n < |rest| - 1 ensures Follows(rest[n], rest[n + 1]) {
      assert rest[n] == pat[n + 1] && rest[n + 1] == pat[n + 2];
    }
  }

  /** A run of `p` characters from `i` never outlasts the greedy run from `i`. */
  lemma RunCovers(s: string, i: nat, k': nat, p: char -> bool)
    requires i <= k' <= |s| && AllIn(s, i, k', p)
    ensures k' <= RunEnd(s, i, p)
    decreases |s| - i
  {
    if i < k' {
      RunCovers(s, i + 1, k', p);
    }
  }
}
