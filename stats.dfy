/**
 * Replacements for Python's `sum`, `statistics.mean` and `statistics.median`
 * over exact reals, with the facts about them the filters rely on.
 */
module Stats {
  function Abs(x: real): (r: real)
    ensures r >= 0.0 && (r == x || r == -x)
  {
    if x < 0.0 then -x else x
  }

  function Sum(xs: seq<real>): real
  {
    if |xs| == 0 then 0.0 else xs[0] + Sum(xs[1..])
  }

  /** The smallest element. */
  function MinOf(xs: seq<real>): (m: real)
    requires |xs| > 0
    ensures forall i :: 0 <= i < |xs| ==> m <= xs[i]
  {
    if |xs| == 1 then xs[0]
    else
      var rest := MinOf(xs[1..]);
      assert forall i :: 1 <= i < |xs| ==> xs[i] == xs[1..][i - 1];
      if xs[0] <= rest then xs[0] else rest
  }

  /** The largest element. */
  function MaxOf(xs: seq<real>): (m: real)
    requires |xs| > 0
    ensures forall i :: 0 <= i < |xs| ==> xs[i] <= m
  {
    if |xs| == 1 then xs[0]
    else
      var rest := MaxOf(xs[1..]);
      assert forall i :: 1 <= i < |xs| ==> xs[i] == xs[1..][i - 1];
      if xs[0] >= rest then xs[0] else rest
  }

  /** The minimum and the maximum are elements of the list. */
  lemma {:induction false} MinMaxAreElements(xs: seq<real>)
    requires |xs| > 0
    ensures exists i :: 0 <= i < |xs| && xs[i] == MinOf(xs)
    ensures exists i :: 0 <= i < |xs| && xs[i] == MaxOf(xs)
  {
    if |xs| > 1 {
      MinMaxAreElements(xs[1..]);
      var i :| 0 <= i < |xs| - 1 && xs[1..][i] == MinOf(xs[1..]);
      assert xs[i + 1] == MinOf(xs[1..]);
      var j :| 0 <= j < |xs| - 1 && xs[1..][j] == MaxOf(xs[1..]);
      assert xs[j + 1] == MaxOf(xs[1..]);
    } else {
      assert xs[0] == MinOf(xs);
    }
  }

  /** A sum of terms between `lo` and `hi` lies between `n * lo` and `n * hi`. */
  lemma {:induction false} SumBetween(xs: seq<real>, lo: real, hi: real)
    requires forall i :: 0 <= i < |xs| ==> lo <= xs[i] <= hi
    ensures (|xs| as real) * lo <= Sum(xs) <= (|xs| as real) * hi
  {
    if |xs| > 0 {
      assert forall i :: 0 <= i < |xs| - 1 ==> xs[1..][i] == xs[i + 1];
      SumBetween(xs[1..], lo, hi);
      var m := (|xs| - 1) as real;
      assert (|xs| as real) * lo == m * lo + lo && (|xs| as real) * hi == m * hi + hi;
    }
  }

  /** Division by a positive count keeps a value between the bounds it had times that count. */
  lemma DivBetween(s: real, n: real, lo: real, hi: real)
    requires n > 0.0 && n * lo <= s <= n * hi
    ensures lo <= s / n <= hi
  {
    var q := s / n;
    assert q * n == s;
  }

  /** `statistics.mean`: the arithmetic mean, which lies in the range of its data. */
  function Mean(xs: seq<real>): (m: real)
    requires |xs| > 0
    ensures MinOf(xs) <= m <= MaxOf(xs)
  {
    SumBetween(xs, MinOf(xs), MaxOf(xs));
    DivBetween(Sum(xs), |xs| as real, MinOf(xs), MaxOf(xs));
    Sum(xs) / (|xs| as real)
  }

  /** The mean of a one-element list is its element. */
  lemma MeanOfOne(x: real)
    ensures Mean([x]) == x
  {
    assert Sum([x]) == x + Sum([]);
  }

  /** Each element is at most the next one. */
  predicate Sorted(xs: seq<real>)
  {
    forall i :: 0 < i < |xs| ==> xs[i - 1] <= xs[i]
  }

  /** Insert `x` into a sorted list, keeping it sorted. */
  function Insert(x: real, xs: seq<real>): (r: seq<real>)
    requires Sorted(xs)
    ensures Sorted(r)
    ensures |r| == |xs| + 1
    ensures r[0] == if |xs| == 0 || x <= xs[0] then x else xs[0]
  {
    if |xs| == 0 then [x]
    else if x <= xs[0] then [x] + xs
    else
      assert xs == [xs[0]] + xs[1..];
      var rest := Insert(x, xs[1..]);
      assert |xs| > 1 ==> rest[0] == x || rest[0] == xs[1];
      [xs[0]] + rest
  }

  /** Insertion adds `x` and loses nothing. */
  lemma {:induction false} InsertPermutes(x: real, xs: seq<real>)
    requires Sorted(xs)
    ensures multiset(Insert(x, xs)) == multiset(xs) + multiset{x}
  {
    if |xs| > 0 && x > xs[0] {
      assert xs == [xs[0]] + xs[1..];
      InsertPermutes(x, xs[1..]);
    }
  }

  /** Python's `sorted` on reals: a sorted list of the same length. */
  function Sort(xs: seq<real>): (r: seq<real>)
    ensures Sorted(r)
    ensures |r| == |xs|
  {
    if |xs| == 0 then []
    else Insert(xs[0], Sort(xs[1..]))
  }

  /** `Sort` returns a permutation of its input. */
  lemma {:induction false} SortPermutes(xs: seq<real>)
    ensures multiset(Sort(xs)) == multiset(xs)
  {
    if |xs| > 0 {
      assert xs == [xs[0]] + xs[1..];
      SortPermutes(xs[1..]);
      InsertPermutes(xs[0], Sort(xs[1..]));
    }
  }

  /**
   * `statistics.median`: the middle element of the sorted data, or the mean
   * of the two middle elements when the count is even. It lies in the range
   * of its data.
   */
  function Median(xs: seq<real>): (m: real)
    requires |xs| > 0
    ensures MinOf(xs) <= m <= MaxOf(xs)
  {
    SortPermutes(xs);
    var s := Sort(xs);
    var n := |s|;
    assert forall k :: 0 <= k < n ==> s[k] in multiset(xs);
    if n % 2 == 1 then s[n / 2] else (s[n / 2 - 1] + s[n / 2]) / 2.0
  }

  /** The median of one value is that value. */
  lemma MedianOfOne(a: real)
    ensures Median([a]) == a
  {
    assert Sort([a]) == Insert(a, Sort([]));
  }

  /** Sorting two values. */
  lemma SortOfTwo(a: real, b: real)
    ensures Sort([a, b]) == if a <= b then [a, b] else [b, a]
  {
    assert [a, b][1..] == [b];
    assert Sort([b]) == Insert(b, Sort([])) == [b];
    assert Sort([a, b]) == Insert(a, [b]);
    if a > b {
      assert Insert(a, [b]) == [b] + Insert(a, []);
    }
  }

  /** The median of two values is their mean. */
  lemma MedianOfTwo(a: real, b: real)
    ensures Median([a, b]) == (a + b) / 2.0
  {
    SortOfTwo(a, b);
  }

  /** Inserting into a sorted pair. */
  lemma InsertIntoTwo(x: real, p: real, q: real)
    requires p <= q
    ensures Insert(x, [p, q]) == if x <= p then [x, p, q] else if x <= q then [p, x, q] else [p, q, x]
  {
    assert [p, q][1..] == [q];
    if x > p {
      assert Insert(x, [p, q]) == [p] + Insert(x, [q]);
      if x > q {
        assert Insert(x, [q]) == [q] + Insert(x, []);
      }
    }
  }

  /** The middle one of three values, written without sorting. */
  function Middle(a: real, b: real, c: real): real
  {
    if a <= b then (if b <= c then b else if a <= c then c else a)
    else (if a <= c then a else if b <= c then c else b)
  }

  /** Inserting into a sorted pair puts the middle of the three in the middle. */
  lemma MiddleOfInsert(x: real, p: real, q: real)
    requires p <= q
    ensures |Insert(x, [p, q])| == 3 && Insert(x, [p, q])[1] == Middle(x, p, q)
  {
    InsertIntoTwo(x, p, q);
  }

  /** Sorting three values inserts the first into the sorted other two. */
  lemma SortThreeStep(a: real, b: real, c: real)
    ensures Sort([a, b, c]) == Insert(a, Sort([b, c]))
  {
    assert [a, b, c][1..] == [b, c];
  }

  /** Sorting three values puts the middle one in the middle. */
  lemma SortOfThree(a: real, b: real, c: real)
    ensures |Sort([a, b, c])| == 3 && Sort([a, b, c])[1] == Middle(a, b, c)
  {
    SortOfTwo(b, c);
    SortThreeStep(a, b, c);
    if b <= c {
      MiddleOfInsert(a, b, c);
    } else {
      MiddleOfInsert(a, c, b);
    }
  }

  /** Three values have the second sorted one as their median. */
  lemma MedianOfThreeSorted(xs: seq<real>)
    requires |xs| == 3
    ensures Median(xs) == Sort(xs)[1]
  {
  }

  /** The median of three values is the middle one. */
  lemma MedianOfThree(a: real, b: real, c: real)
    ensures Median([a, b, c]) == Middle(a, b, c)
  {
    SortOfThree(a, b, c);
    MedianOfThreeSorted([a, b, c]);
  }
}
