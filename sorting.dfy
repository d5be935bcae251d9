/**
 * Python's stable sorting (`sorted(xs, key=...)`, `xs.sort(key=...)`, with or without
 * `reverse=True`), and Python's ordering of strings.
 *
 * An ordering is given as `less(a, b)`: "a must come before b". For an ascending key
 * that is `key(a) < key(b)`; for `reverse=True` it is `key(a) > key(b)` (Python's
 * reverse sort is still stable: equal keys keep their input order).
 */
module Sorting {

  /** Asymmetric, and "does not come before" is transitive: what Python's sort needs of `<` on keys. */
  ghost predicate StrictWeakOrder<T(!new)>(less: (T, T) -> bool) {
    && (forall a, b :: less(a, b) ==> !less(b, a))
    && (forall a, b, c :: !less(a, b) && !less(b, c) ==> !less(a, c))
  }

  predicate Sorted<T>(s: seq<T>, less: (T, T) -> bool) {
    forall i, j :: 0 <= i < j < |s| ==> !less(s[j], s[i])
  }

  /** Neither comes before the other: the two keys are equal. */
  predicate Tied<T>(a: T, b: T, less: (T, T) -> bool) {
    !less(a, b) && !less(b, a)
  }

  /** Inserts `x` after every element it does not come before, so that it follows its ties. */
  function InsertAfterTies<T>(s: seq<T>, x: T, less: (T, T) -> bool): (r: seq<T>)
    ensures |r| == |s| + 1
  {
    if s == [] || !less(x, s[|s| - 1]) then s + [x]
    else InsertAfterTies(s[..|s| - 1], x, less) + [s[|s| - 1]]
  }

  /** Insertion sort, element by element from the front: the sorted list Python's stable sort returns. */
  function StableSort<T>(s: seq<T>, less: (T, T) -> bool): (r: seq<T>)
    ensures |r| == |s|
  {
    if s == [] then []
    else InsertAfterTies(StableSort(s[..|s| - 1], less), s[|s| - 1], less)
  }

  lemma {:induction false} InsertPermutes<T>(s: seq<T>, x: T, less: (T, T) -> bool)
    ensures multiset(InsertAfterTies(s, x, less)) == multiset(s) + multiset{x}
  {
    if s != [] && less(x, s[|s| - 1]) {
      InsertPermutes(s[..|s| - 1], x, less);
      assert s == s[..|s| - 1] + [s[|s| - 1]];
    }
  }

  /** `StableSort` rearranges its input: the result holds the same elements, as often. */
  lemma {:induction false} StableSortPermutes<T>(s: seq<T>, less: (T, T) -> bool)
    ensures multiset(StableSort(s, less)) == multiset(s)
  {
    if s != [] {
      StableSortPermutes(s[..|s| - 1], less);
      InsertPermutes(StableSort(s[..|s| - 1], less), s[|s| - 1], less);
      assert s == s[..|s| - 1] + [s[|s| - 1]];
    }
  }

  lemma {:induction false} InsertKeepsSorted<T(!new)>(s: seq<T>, x: T, less: (T, T) -> bool)
    requires StrictWeakOrder(less) && Sorted(s, less)
    ensures Sorted(InsertAfterTies(s, x, less), less)
  {
    if s == [] || !less(x, s[|s| - 1]) {
      var r := s + [x];
      forall i, j | 0 <= i < j < |r| ensures !less(r[j], r[i]) {
        if j == |s| && i < |s| - 1 {
          assert !less(s[|s| - 1], s[i]);
        }
      }
    } else {
      var last := s[|s| - 1];
      var front := s[..|s| - 1];
      InsertKeepsSorted(front, x, less);
      var ins := InsertAfterTies(front, x, less);
      var r := ins + [last];
      InsertPermutes(front, x, less);
      forall i | 0 <= i < |ins| ensures !less(last, ins[i]) {
        assert ins[i] in multiset(ins);
        if ins[i] != x {
          assert ins[i] in multiset(front);
          var k :| 0 <= k < |front| && front[k] == ins[i];
          assert s[k] == ins[i];
        }
      }
      forall i, j | 0 <= i < j < |r| ensures !less(r[j], r[i]) {
        if j == |ins| {
          assert r[i] == ins[i];
        }
      }
    }
  }

  /** The result of `StableSort` is in order. */
  lemma {:induction false} StableSortSorted<T(!new)>(s: seq<T>, less: (T, T) -> bool)
    requires StrictWeakOrder(less)
    ensures Sorted(StableSort(s, less), less)
  {
    if s != [] {
      StableSortSorted(s[..|s| - 1], less);
      InsertKeepsSorted(StableSort(s[..|s| - 1], less), s[|s| - 1], less);
    }
  }

  /** The elements of `s` tied with `k`, in the order `s` holds them. */
  function TiedWith<T>(s: seq<T>, k: T, less: (T, T) -> bool): (r: seq<T>)
    ensures |r| <= |s|
    ensures forall i :: 0 <= i < |r| ==> Tied(r[i], k, less)
  {
    if s == [] then []
    else TiedWith(s[..|s| - 1], k, less) + (if Tied(s[|s| - 1], k, less) then [s[|s| - 1]] else [])
  }

  lemma {:induction false} InsertKeepsTieOrder<T(!new)>(s: seq<T>, x: T, k: T, less: (T, T) -> bool)
    requires StrictWeakOrder(less)
    ensures TiedWith(InsertAfterTies(s, x, less), k, less)
         == TiedWith(s, k, less) + (if Tied(x, k, less) then [x] else [])
  {
    if s == [] || !less(x, s[|s| - 1]) {
      assert (s + [x])[..|s|] == s;
    } else {
      var last := s[|s| - 1];
      var front := s[..|s| - 1];
      var ins := InsertAfterTies(front, x, less);
      InsertKeepsTieOrder(front, x, k, less);
      assert (ins + [last])[..|ins|] == ins;
      if Tied(x, k, less) {
        assert !Tied(last, k, less);
      }
    }
  }

  /** Stability: the elements tied with any `k` come out in the order they went in. */
  lemma {:induction false} StableSortKeepsTieOrder<T(!new)>(s: seq<T>, k: T, less: (T, T) -> bool)
    requires StrictWeakOrder(less)
    ensures TiedWith(StableSort(s, less), k, less) == TiedWith(s, k, less)
  {
    if s != [] {
      StableSortKeepsTieOrder(s[..|s| - 1], k, less);
      InsertKeepsTieOrder(StableSort(s[..|s| - 1], less), s[|s| - 1], k, less);
    }
  }

  /**
   * The first element of the sorted list comes from the input, nothing in the input comes
   * before it, and it is the earliest such element: everything listed before it in the
   * input comes strictly after it in the order.
   */
  lemma StableSortFirst<T(!new)>(s: seq<T>, less: (T, T) -> bool)
    requires StrictWeakOrder(less) && s != []
    ensures var x := StableSort(s, less)[0];
      && x in s
      && (forall y :: y in s ==> !less(y, x))
      && exists k :: 0 <= k < |s| && s[k] == x && forall j :: 0 <= j < k ==> less(x, s[j])
  {
    var r := StableSort(s, less);
    var x := r[0];
    StableSortPermutes(s, less);
    StableSortSorted(s, less);
    assert x in multiset(r);
    forall y | y in s ensures !less(y, x) {
      assert y in multiset(r);
      var j :| 0 <= j < |r| && r[j] == y;
    }
    var k := FirstTied(s, x, less, 0);
    TiedWithHead(s, x, less, k);
    TiedWithHead(r, x, less, 0);
    StableSortKeepsTieOrder(s, x, less);
    forall j | 0 <= j < k ensures less(x, s[j]) {
      assert s[j] in s;
    }
  }

  /** The first index from `i` on whose element is tied with `x`, or `|s|` if none is. */
  function FirstTied<T>(s: seq<T>, x: T, less: (T, T) -> bool, i: nat): (k: nat)
    requires i <= |s|
    ensures i <= k <= |s|
    ensures forall j :: i <= j < k ==> !Tied(s[j], x, less)
    ensures x in s[i..] && !less(x, x) ==> k < |s| && Tied(s[k], x, less)
    decreases |s| - i
  {
    if i == |s| || Tied(s[i], x, less) then i
    else
      assert x in s[i..] && !less(x, x) ==> x in s[i + 1..] by {
        assert s[i..] == [s[i]] + s[i + 1..];
      }
      FirstTied(s, x, less, i + 1)
  }

  /** The tied elements start with the first element tied with `x`. */
  lemma {:induction false} TiedWithHead<T>(s: seq<T>, x: T, less: (T, T) -> bool, k: nat)
    requires k < |s| && Tied(s[k], x, less)
    requires forall j :: 0 <= j < k ==> !Tied(s[j], x, less)
    ensures TiedWith(s, x, less) != [] && TiedWith(s, x, less)[0] == s[k]
  {
    var front := s[..|s| - 1];
    if k < |s| - 1 {
      TiedWithHead(front, x, less, k);
    } else {
      TiedWithNone(front, x, less);
    }
  }

  /** No element tied with `x`: nothing is kept. */
  lemma {:induction false} TiedWithNone<T>(s: seq<T>, x: T, less: (T, T) -> bool)
    requires forall j :: 0 <= j < |s| ==> !Tied(s[j], x, less)
    ensures TiedWith(s, x, less) == []
  {
    if s != [] {
      TiedWithNone(s[..|s| - 1], x, less);
    }
  }

  /** Python's `a.sort(key=...)` on a list held in place: insertion sort that shifts later elements right. */
  method SortInPlace<T>(a: array<T>, less: (T, T) -> bool)
    modifies a
    ensures a[..] == StableSort(old(a[..]), less)
  {
    ghost var input := a[..];
    var i := 0;
    while i < a.Length
      invariant 0 <= i <= a.Length
      invariant a[..i] == StableSort(input[..i], less)
      invariant a[i..] == input[i..]
    {
      assert a[i] == input[i] by {
        assert a[i..][0] == input[i..][0];
      }
      InsertAt(a, i, less);
      StableSortStep(input, i, less);
      assert a[i + 1..] == input[i + 1..] by {
        assert input[i + 1..] == input[i..][1..];
      }
      i := i + 1;
    }
    assert input[..a.Length] == input;
  }

  /** Sorting one more element inserts it into the sorted prefix. */
  lemma StableSortStep<T>(s: seq<T>, i: nat, less: (T, T) -> bool)
    requires i < |s|
    ensures StableSort(s[..i + 1], less) == InsertAfterTies(StableSort(s[..i], less), s[i], less)
  {
    assert s[..i + 1][..i] == s[..i];
  }

  /** One step of `SortInPlace`: moves `a[i]` left past the elements it comes before. */
  method InsertAt<T>(a: array<T>, i: nat, less: (T, T) -> bool)
    requires i < a.Length
    modifies a
    ensures a[..i + 1] == InsertAfterTies(old(a[..i]), old(a[i]), less)
    ensures a[i + 1..] == old(a[i + 1..])
  {
    var x := a[i];
    ghost var sorted := a[..i];
    var j := i;
    assert a[..i + 1] == sorted[..j] + [a[j]] + sorted[j..];
    while j > 0 && less(x, a[j - 1])
      invariant 0 <= j <= i
      invariant a[..i + 1] == sorted[..j] + [a[j]] + sorted[j..]
      invariant a[i + 1..] == old(a[i + 1..])
      invariant forall k :: j <= k < i ==> less(x, sorted[k])
    {
      assert a[j - 1] == sorted[j - 1] by {
        assert a[..i + 1][j - 1] == a[j - 1];
      }
      ShiftHole(sorted, j, a[j]);
      a[j] := a[j - 1];
      j := j - 1;
    }
    FillHole(sorted[..j], a[j], x, sorted[j..]);
    a[j] := x;
    InsertPastSuffix(sorted, j, x, less);
    assert j == 0 || !less(x, sorted[..j][j - 1]);
  }

  /** Moving the element before the hole into it moves the hole one place left. */
  lemma ShiftHole<T>(s: seq<T>, j: nat, h: T)
    requires 0 < j <= |s|
    ensures (s[..j] + [h] + s[j..])[j := s[j - 1]] == s[..j - 1] + [s[j - 1]] + s[j - 1..]
  {
  }

  /** Filling the hole. */
  lemma FillHole<T>(p: seq<T>, h: T, x: T, q: seq<T>)
    ensures (p + [h] + q)[|p| := x] == p + [x] + q
  {
  }

  /** `x` goes in front of a final stretch of elements it comes before. */
  lemma {:induction false} InsertPastSuffix<T>(s: seq<T>, j: nat, x: T, less: (T, T) -> bool)
    requires j <= |s|
    requires forall k :: j <= k < |s| ==> less(x, s[k])
    ensures InsertAfterTies(s, x, less) == InsertAfterTies(s[..j], x, less) + s[j..]
    decreases |s| - j
  {
    if j == |s| {
      assert s[..j] == s;
    } else {
      var front := s[..|s| - 1];
      InsertPastSuffix(front, j, x, less);
      assert front[..j] == s[..j];
      assert front[j..] + [s[|s| - 1]] == s[j..];
    }
  }

  /** Python's `<` on `str`: code point by code point, a proper prefix first. */
  predicate StrLess(a: string, b: string) {
    if a == [] then b != []
    else if b == [] then false
    else if a[0] != b[0] then a[0] < b[0]
    else StrLess(a[1..], b[1..])
  }

  lemma {:induction false} StrLessIrreflexive(a: string)
    ensures !StrLess(a, a)
  {
    if a != [] { StrLessIrreflexive(a[1..]); }
  }

  lemma {:induction false} StrLessTransitive(a: string, b: string, c: string)
    requires StrLess(a, b) && StrLess(b, c)
    ensures StrLess(a, c)
  {
    if a != [] && b != [] && c != [] && a[0] == b[0] && b[0] == c[0] {
      StrLessTransitive(a[1..], b[1..], c[1..]);
    }
  }

  lemma {:induction false} StrLessTotal(a: string, b: string)
    ensures a == b || StrLess(a, b) || StrLess(b, a)
  {
    if a != [] && b != [] && a[0] == b[0] {
      StrLessTotal(a[1..], b[1..]);
      if a[1..] == b[1..] {
        assert a == [a[0]] + a[1..] && b == [b[0]] + b[1..];
      }
    }
  }

  /** Python's `<` on `(str, str)` tuples: by the first component, then the second. */
  predicate PairLess(a: (string, string), b: (string, string)) {
    StrLess(a.0, b.0) || (a.0 == b.0 && StrLess(a.1, b.1))
  }

  /** Ordering any values by a string key with Python's `<` is a strict weak order. */
  lemma StringKeyOrder<T(!new)>(key: T -> string)
    ensures StrictWeakOrder((x: T, y: T) => StrLess(key(x), key(y)))
  {
    forall a: T, b: T | StrLess(key(a), key(b)) ensures !StrLess(key(b), key(a)) {
      if StrLess(key(b), key(a)) {
        StrLessTransitive(key(a), key(b), key(a));
        StrLessIrreflexive(key(a));
      }
    }
    forall a: T, b: T, c: T | !StrLess(key(a), key(b)) && !StrLess(key(b), key(c))
      ensures !StrLess(key(a), key(c))
    {
      StrLessTotal(key(a), key(b));
      StrLessTotal(key(b), key(c));
      if StrLess(key(a), key(c)) {
        if key(a) == key(b) {
        } else if key(b) == key(c) {
        } else {
          StrLessTransitive(key(c), key(b), key(a));
          StrLessTransitive(key(a), key(c), key(a));
          StrLessIrreflexive(key(a));
        }
      }
    }
  }

  /** Ordering any values by a `(str, str)` key with Python's tuple `<` is a strict weak order. */
  lemma PairKeyOrder<T(!new)>(key: T -> (string, string))
    ensures StrictWeakOrder((x: T, y: T) => PairLess(key(x), key(y)))
  {
    forall a: T, b: T | PairLess(key(a), key(b)) ensures !PairLess(key(b), key(a)) {
      PairAsymmetric(key(a), key(b));
    }
    forall a: T, b: T, c: T | !PairLess(key(a), key(b)) && !PairLess(key(b), key(c))
      ensures !PairLess(key(a), key(c))
    {
      PairNotLessTransitive(key(a), key(b), key(c));
    }
  }

  lemma PairAsymmetric(p: (string, string), q: (string, string))
    requires PairLess(p, q)
    ensures !PairLess(q, p)
  {
    if PairLess(q, p) {
      if StrLess(p.0, q.0) && StrLess(q.0, p.0) {
        StrLessTransitive(p.0, q.0, p.0);
        StrLessIrreflexive(p.0);
      } else if StrLess(p.0, q.0) || StrLess(q.0, p.0) {
        StrLessIrreflexive(p.0);
      } else {
        StrLessTransitive(p.1, q.1, p.1);
        StrLessIrreflexive(p.1);
      }
    }
  }

  lemma PairNotLessTransitive(p: (string, string), q: (string, string), r: (string, string))
    requires !PairLess(p, q) && !PairLess(q, r)
    ensures !PairLess(p, r)
  {
    StrLessTotal(p.0, q.0);
    StrLessTotal(q.0, r.0);
    StrLessTotal(p.1, q.1);
    StrLessTotal(q.1, r.1);
    if PairLess(p, r) {
      if StrLess(p.0, r.0) {
        if p.0 == q.0 {
        } else if q.0 == r.0 {
        } else {
          StrLessTransitive(r.0, q.0, p.0);
          StrLessTransitive(p.0, r.0, p.0);
          StrLessIrreflexive(p.0);
        }
      } else {
        StrLessIrreflexive(p.0);
        if p.1 == q.1 {
        } else if q.1 == r.1 {
        } else {
          StrLessIrreflexive(q.0);
          StrLessTransitive(r.1, q.1, p.1);
          StrLessTransitive(p.1, r.1, p.1);
          StrLessIrreflexive(p.1);
        }
      }
    }
  }

  /** Ordering by an integer key, largest first (Python's `sort(key=..., reverse=True)`), is a strict weak order. */
  lemma DescendingIntKeyOrder<T(!new)>(key: T -> int)
    ensures StrictWeakOrder((x: T, y: T) => key(x) > key(y))
  {
  }
}
