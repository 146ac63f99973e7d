/**
 * Time series as the step counter stores them: lists of `[t, value]` pairs,
 * and the bits of Python indexing semantics the detector relies on.
 */
module Series {
  /** One point of a series: time in seconds and a value. */
  datatype Sample = Sample(t: real, v: real)

  /** The value column of a series, `[pt[1] for pt in s]`. */
  function Values(s: seq<Sample>): seq<real>
  {
    seq(|s|, i requires 0 <= i < |s| => s[i].v)
  }

  /** Same length and the same time at every index. */
  predicate SameTimes(a: seq<Sample>, b: seq<Sample>)
  {
    |a| == |b| && forall i :: 0 <= i < |a| ==> a[i].t == b[i].t
  }

  /**
   * The index Python reads for `s[i - 1]` when `0 <= i < n == len(s)`:
   * a negative index counts from the end, so `i == 0` reads the last element.
   * The index read is `i - 1` taken modulo `n`, the element cyclically
   * before `i`.
   */
  function PyPrev(n: nat, i: nat): (k: nat)
    requires i < n
    ensures k == (i - 1) % n
    ensures (k + 1) % n == i
  {
    if i == 0 then n - 1 else i - 1
  }

  /** Python's `s[start:]` for any integer `start`. */
  function PySliceFrom<T>(s: seq<T>, start: int): seq<T>
  {
    if start >= 0 then
      (if start <= |s| then s[start..] else [])
    else if |s| + start >= 0 then s[|s| + start..]
    else s
  }

  /**
   * `s[start:]` is always a suffix of `s`: a non-negative start drops that
   * many elements (all of them past the end), a negative start keeps the
   * last `-start` elements (all of them when there are fewer).
   */
  lemma PySliceFromIsSuffix<T>(s: seq<T>, start: int)
    ensures var r := PySliceFrom(s, start);
      |r| <= |s| && r == s[|s| - |r|..]
    ensures start >= 0 ==> |PySliceFrom(s, start)| == |s| - Min(start, |s|)
    ensures start < 0 ==> |PySliceFrom(s, start)| == Min(-start, |s|)
  {
  }

  function Min(a: int, b: int): int { if a <= b then a else b }

  /** The value column of a slice is the slice of the value column. */
  lemma ValuesOfSlice(s: seq<Sample>, a: nat, b: nat)
    requires a <= b <= |s|
    ensures Values(s[a..b]) == Values(s)[a..b]
  {
  }

  /**
   * The index of Python's `max(s, key=lambda pt: pt[1])`: the first sample
   * of largest value (later ties do not replace it).
   */
  function FirstMaxIndex(s: seq<Sample>): (k: nat)
    requires |s| > 0
    ensures k < |s|
    ensures forall j :: 0 <= j < |s| ==> s[j].v <= s[k].v
    ensures forall j :: 0 <= j < k ==> s[j].v < s[k].v
  {
    if |s| == 1 then 0
    else
      var k := FirstMaxIndex(s[..|s| - 1]);
      assert forall j :: 0 <= j < |s| - 1 ==> s[..|s| - 1][j] == s[j];
      if s[|s| - 1].v > s[k].v then |s| - 1 else k
  }

  /** `max(s, key=lambda pt: pt[1])`. */
  function FirstMax(s: seq<Sample>): (m: Sample)
    requires |s| > 0
    ensures m in s
    ensures forall j :: 0 <= j < |s| ==> s[j].v <= m.v
  {
    s[FirstMaxIndex(s)]
  }

  /** Python's `s.index(x)`: the first position holding `x`. */
  function IndexOf<T(==)>(s: seq<T>, x: T): (k: nat)
    requires x in s
    ensures k < |s| && s[k] == x
    ensures forall j :: 0 <= j < k ==> s[j] != x
  {
    if s[0] == x then 0
    else
      assert x in s[1..];
      1 + IndexOf(s[1..], x)
  }
}
