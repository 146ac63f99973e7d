/**
 * The signal conditioner: time normalisation, the hysteretic moving-median
 * filter, the trailing moving averages and the adaptive threshold
 * (step_counter.py:54-107). Every output series is index-aligned with its input.
 */
module Conditioning {
  import opened Wrappers
  import opened Config
  import opened Series
  import opened Stats

  /** `normalize_times`: shift all times so that the first sample is at 0. */
  function NormalizeTimes(data: seq<Sample>): (r: seq<Sample>)
    ensures |r| == |data| && Values(r) == Values(data)
    ensures |data| > 0 ==> r[0].t == 0.0
    ensures forall i, j :: 0 <= i < |data| && 0 <= j < |data| ==> r[j].t - r[i].t == data[j].t - data[i].t
  {
    seq(|data|, i requires 0 <= i < |data| => Sample(data[i].t - data[0].t, data[i].v))
  }

  /** Normalising twice is normalising once. */
  lemma NormalizeTimesIdempotent(data: seq<Sample>)
    ensures NormalizeTimes(NormalizeTimes(data)) == NormalizeTimes(data)
  {
    var once := NormalizeTimes(data);
    var twice := NormalizeTimes(once);
    assert forall i :: 0 <= i < |data| ==> twice[i].v == once[i].v;
    if |data| > 0 {
      assert forall i :: 0 <= i < |data| ==> twice[i].t == once[i].t - once[0].t;
    }
  }

  /**
   * `lambda_M_threshold`: keep the previous output when the new median is
   * within the hysteresis band of it, otherwise adopt the new median.
   */
  function LambdaMThreshold(current: real, previous: Option<real>): (r: real)
    ensures previous.None? ==> r == current
    ensures previous.Some? ==> (r == previous.value <==> Abs(current - previous.value) < LambdaM)
    ensures r == current || (previous.Some? && r == previous.value)
    ensures Abs(r - current) < LambdaM
  {
    if previous.Some? && Abs(current - previous.value) < LambdaM then previous.value else current
  }

  /** First index of the median window `[max(i - 2, 0), i]`. */
  function MedianWindowStart(i: nat): nat
  {
    if i >= 2 then i - 2 else 0
  }

  /**
   * `compute_current_median`: the median of the raw values in the window
   * `[max(i - 2, 0), i]`. The window holds one, two or three values, and the
   * median is written out for each size; `CurrentMedianIsMedian` shows it is
   * the sorting median of the window.
   */
  function CurrentMedian(i: nat, mags: seq<Sample>): real
    requires i < |mags|
  {
    if i == 0 then mags[0].v
    else if i == 1 then (mags[0].v + mags[1].v) / 2.0
    else Middle(mags[i - 2].v, mags[i - 1].v, mags[i].v)
  }

  /** The values in the window of `CurrentMedian`, one to three of them. */
  lemma WindowValues(i: nat, mags: seq<Sample>)
    requires i < |mags|
    ensures Values(mags[MedianWindowStart(i)..i + 1]) ==
      if i == 0 then [mags[0].v]
      else if i == 1 then [mags[0].v, mags[1].v]
      else [mags[i - 2].v, mags[i - 1].v, mags[i].v]
  {
    var w := Values(mags[MedianWindowStart(i)..i + 1]);
    if i == 0 {
      assert w == [mags[0].v];
    } else if i == 1 {
      assert w == [mags[0].v, mags[1].v];
    } else {
      assert w == [mags[i - 2].v, mags[i - 1].v, mags[i].v];
    }
  }

  /** The window median is `statistics.median` of the window's values. */
  lemma CurrentMedianIsMedian(i: nat, mags: seq<Sample>)
    requires i < |mags|
    ensures CurrentMedian(i, mags) == Median(Values(mags[MedianWindowStart(i)..i + 1]))
  {
    WindowValues(i, mags);
    if i == 0 {
      MedianOfOne(mags[0].v);
    } else if i == 1 {
      MedianOfTwo(mags[0].v, mags[1].v);
    } else {
      MedianOfThree(mags[i - 2].v, mags[i - 1].v, mags[i].v);
    }
  }

  /** `get_previous_median`: the value at `i - 1` when that index exists. */
  function GetPreviousMedian(i: int, medians: seq<Sample>): Option<real>
  {
    if 0 <= i - 1 < |medians| then Some(medians[i - 1].v) else None
  }

  /**
   * As the median filter calls it, with `i` the number of outputs so far,
   * the previous median is the last output appended, and there is none at
   * the first sample: the guard keeps Python from wrapping `medians[-1]`
   * around to the end of the list.
   */
  lemma PreviousMedianIsLastOutput(filtered: seq<Sample>)
    ensures GetPreviousMedian(|filtered|, filtered).None? <==> |filtered| == 0
    ensures |filtered| > 0 ==> GetPreviousMedian(|filtered|, filtered) == Some(filtered[|filtered| - 1].v)
    ensures GetPreviousMedian(0, filtered) == None
  {
  }

  /** A part of a list has a minimum no smaller and a maximum no larger than the whole. */
  lemma RangeOfPart(xs: seq<real>, a: nat, b: nat)
    requires a < b <= |xs|
    ensures MinOf(xs) <= MinOf(xs[a..b]) && MaxOf(xs[a..b]) <= MaxOf(xs)
  {
    var part := xs[a..b];
    MinMaxAreElements(part);
    var k :| 0 <= k < |part| && part[k] == MinOf(part);
    assert part[k] == xs[a + k];
    var k' :| 0 <= k' < |part| && part[k'] == MaxOf(part);
    assert part[k'] == xs[a + k'];
  }

  /** The window median lies in the range of the raw values up to `i`. */
  lemma CurrentMedianInPrefixRange(i: nat, mags: seq<Sample>)
    requires i < |mags|
    ensures MinOf(Values(mags)[..i + 1]) <= CurrentMedian(i, mags) <= MaxOf(Values(mags)[..i + 1])
  {
    var vals := Values(mags);
    var lo := MedianWindowStart(i);
    CurrentMedianIsMedian(i, mags);
    ValuesOfSlice(mags, lo, i + 1);
    RangeOfPart(vals[..i + 1], lo, i + 1);
    assert vals[..i + 1][lo..i + 1] == vals[lo..i + 1];
  }

  /** Growing a prefix by one element can only widen its range. */
  lemma PrefixRangeGrows(xs: seq<real>, i: nat)
    requires 0 < i < |xs|
    ensures MinOf(xs[..i + 1]) <= MinOf(xs[..i]) && MaxOf(xs[..i]) <= MaxOf(xs[..i + 1])
  {
    RangeOfPart(xs[..i + 1], 0, i);
    assert xs[..i + 1][0..i] == xs[..i];
  }

  /**
   * What the median filter has established for its first `n` outputs:
   * aligned times, the first value taken over, and each later value the
   * hysteresis of its window median against the previous output.
   */
  ghost predicate MedianFiltered(mags: seq<Sample>, filtered: seq<Sample>, n: nat)
    requires n <= |mags|
  {
    && |filtered| == n
    && (forall k :: 0 <= k < n ==> filtered[k].t == mags[k].t)
    && (n > 0 ==> filtered[0].v == mags[0].v)
    && (forall k {:trigger CurrentMedian(k, mags)} :: 0 < k < n ==>
          filtered[k].v == LambdaMThreshold(CurrentMedian(k, mags), Some(filtered[k - 1].v)))
    && (forall k {:trigger CurrentMedian(k, mags)} :: 0 <= k < n ==>
          Abs(filtered[k].v - CurrentMedian(k, mags)) < LambdaM)
  }

  /** Each of the first `n` outputs lies in the range of the raw values up to its index. */
  ghost predicate WithinSeenRange(mags: seq<Sample>, filtered: seq<Sample>, n: nat)
    requires n <= |mags| && n <= |filtered|
  {
    forall k {:trigger MinOf(Values(mags)[..k + 1])} :: 0 <= k < n ==>
      MinOf(Values(mags)[..k + 1]) <= filtered[k].v <= MaxOf(Values(mags)[..k + 1])
  }

  /** The value the filter appends at index `i`. */
  function NextFiltered(mags: seq<Sample>, filtered: seq<Sample>, i: nat): Sample
    requires i < |mags|
  {
    Sample(mags[i].t, LambdaMThreshold(CurrentMedian(i, mags), GetPreviousMedian(i, filtered)))
  }

  /** One iteration of the median filter keeps `MedianFiltered`. */
  lemma MedianFilterStep(mags: seq<Sample>, filtered: seq<Sample>, i: nat)
    requires i < |mags| && MedianFiltered(mags, filtered, i)
    ensures MedianFiltered(mags, filtered + [NextFiltered(mags, filtered, i)], i + 1)
  {
    var next := filtered + [NextFiltered(mags, filtered, i)];
    assert forall k :: 0 <= k < i ==> next[k] == filtered[k];
    forall k | 0 < k < i + 1
      ensures next[k].v == LambdaMThreshold(CurrentMedian(k, mags), Some(next[k - 1].v))
    {
      if k == i {
        PreviousMedianIsLastOutput(filtered);
        assert GetPreviousMedian(i, filtered) == Some(next[k - 1].v);
      }
    }
  }

  /** One iteration of the median filter keeps `WithinSeenRange`. */
  lemma SeenRangeStep(mags: seq<Sample>, filtered: seq<Sample>, i: nat)
    requires i < |mags| && |filtered| == i && WithinSeenRange(mags, filtered, i)
    ensures WithinSeenRange(mags, filtered + [NextFiltered(mags, filtered, i)], i + 1)
  {
    var next := filtered + [NextFiltered(mags, filtered, i)];
    CurrentMedianInPrefixRange(i, mags);
    if i > 0 {
      PrefixRangeGrows(Values(mags), i);
      var k := i - 1;
      assert MinOf(Values(mags)[..k + 1]) <= filtered[k].v <= MaxOf(Values(mags)[..k + 1]);
    }
    forall k | 0 <= k < i + 1
      ensures MinOf(Values(mags)[..k + 1]) <= next[k].v <= MaxOf(Values(mags)[..k + 1])
    {
      if k < i {
        assert next[k] == filtered[k];
      }
    }
  }

  /** The hysteresis facts of `MedianFiltered` once every sample is done. */
  lemma MedianFilterFacts(mags: seq<Sample>, filtered: seq<Sample>)
    requires MedianFiltered(mags, filtered, |mags|)
    ensures SameTimes(filtered, mags)
    ensures |mags| > 0 ==> filtered[0].v == mags[0].v
    ensures forall i :: 0 < i < |mags| ==>
      filtered[i].v == LambdaMThreshold(CurrentMedian(i, mags), Some(filtered[i - 1].v))
    ensures forall i :: 0 <= i < |mags| ==> Abs(filtered[i].v - CurrentMedian(i, mags)) < LambdaM
  {
  }

  /** Each later output either takes the window median or holds the previous output. */
  lemma MedianOrHeld(mags: seq<Sample>, filtered: seq<Sample>)
    requires |filtered| == |mags|
    requires forall i :: 0 < i < |mags| ==>
      filtered[i].v == LambdaMThreshold(CurrentMedian(i, mags), Some(filtered[i - 1].v))
    ensures forall i :: 0 < i < |mags| ==>
      filtered[i].v == CurrentMedian(i, mags) || filtered[i].v == filtered[i - 1].v
  {
    forall i | 0 < i < |mags|
      ensures filtered[i].v == CurrentMedian(i, mags) || filtered[i].v == filtered[i - 1].v
    {
      var r := LambdaMThreshold(CurrentMedian(i, mags), Some(filtered[i - 1].v));
    }
  }

  /** The invariant of the median filter's loop over its first `n` samples. */
  ghost predicate FilterInv(mags: seq<Sample>, filtered: seq<Sample>, n: nat)
    requires n <= |mags|
  {
    MedianFiltered(mags, filtered, n) && |filtered| == n && WithinSeenRange(mags, filtered, n)
  }

  /** One iteration of the median filter keeps its invariant. */
  lemma FilterStep(mags: seq<Sample>, filtered: seq<Sample>, i: nat)
    requires i < |mags| && FilterInv(mags, filtered, i)
    ensures FilterInv(mags, filtered + [NextFiltered(mags, filtered, i)], i + 1)
  {
    MedianFilterStep(mags, filtered, i);
    SeenRangeStep(mags, filtered, i);
  }

  /** What the invariant of the median filter gives once every sample is done. */
  lemma MedianFilterComplete(mags: seq<Sample>, filtered: seq<Sample>)
    requires FilterInv(mags, filtered, |mags|)
    ensures SameTimes(filtered, mags)
    ensures |mags| > 0 ==> filtered[0].v == mags[0].v
    ensures forall i :: 0 < i < |mags| ==>
      filtered[i].v == LambdaMThreshold(CurrentMedian(i, mags), Some(filtered[i - 1].v))
    ensures forall i :: 0 < i < |mags| ==>
      filtered[i].v == CurrentMedian(i, mags) || filtered[i].v == filtered[i - 1].v
    ensures forall i :: 0 <= i < |mags| ==> Abs(filtered[i].v - CurrentMedian(i, mags)) < LambdaM
    ensures forall i :: 0 <= i < |mags| ==>
      MinOf(Values(mags)[..i + 1]) <= filtered[i].v <= MaxOf(Values(mags)[..i + 1])
  {
    MedianFilterFacts(mags, filtered);
    MedianOrHeld(mags, filtered);
    forall i | 0 <= i < |mags|
      ensures MinOf(Values(mags)[..i + 1]) <= filtered[i].v <= MaxOf(Values(mags)[..i + 1])
    {
      assert WithinSeenRange(mags, filtered, |mags|);
    }
  }

  /**
   * `compute_moving_median_filter`: one pass appending, for each sample, its
   * time and the hysteresis of the window median against the previous output.
   * Every output stays within the range of the raw values seen so far.
   */
  method ComputeMovingMedianFilter(mags: seq<Sample>) returns (filtered: seq<Sample>)
    ensures SameTimes(filtered, mags)
    ensures |mags| > 0 ==> filtered[0].v == mags[0].v
    ensures forall i :: 0 < i < |mags| ==>
      filtered[i].v == LambdaMThreshold(CurrentMedian(i, mags), Some(filtered[i - 1].v))
    ensures forall i :: 0 < i < |mags| ==>
      filtered[i].v == CurrentMedian(i, mags) || filtered[i].v == filtered[i - 1].v
    ensures forall i :: 0 <= i < |mags| ==> Abs(filtered[i].v - CurrentMedian(i, mags)) < LambdaM
    ensures forall i :: 0 <= i < |mags| ==>
      MinOf(Values(mags)[..i + 1]) <= filtered[i].v <= MaxOf(Values(mags)[..i + 1])
  {
    filtered := [];
    var i := 0;
    while i < |mags|
      invariant 0 <= i <= |mags|
      invariant FilterInv(mags, filtered, i)
    {
      FilterStep(mags, filtered, i);
      var previous := GetPreviousMedian(i, filtered);
      var median := CurrentMedian(i, mags);
      filtered := filtered + [Sample(mags[i].t, LambdaMThreshold(median, previous))];
      i := i + 1;
    }
    MedianFilterComplete(mags, filtered);
  }

  /** First index of the averaging window `[max(0, i - (w - 1)), i]`. */
  function AverageWindowStart(i: nat, windowLength: int): (k: nat)
    ensures windowLength >= 1 ==> k <= i
  {
    if i - (windowLength - 1) > 0 then i - (windowLength - 1) else 0
  }

  /** The mean of the trailing window of length `windowLength` ending at `i`. */
  function TrailingMean(xs: seq<real>, i: nat, windowLength: int): (m: real)
    requires i < |xs| && windowLength >= 1
    ensures MinOf(xs[AverageWindowStart(i, windowLength)..i + 1]) <= m
    ensures m <= MaxOf(xs[AverageWindowStart(i, windowLength)..i + 1])
  {
    Mean(xs[AverageWindowStart(i, windowLength)..i + 1])
  }

  /** A window of positive length holds `min(i + 1, windowLength)` samples and ends at `i`. */
  lemma AverageWindowShape(i: nat, windowLength: int)
    requires windowLength >= 1
    ensures i + 1 - AverageWindowStart(i, windowLength) == if i + 1 < windowLength then i + 1 else windowLength
  {
  }

  /** With a window of one sample the trailing mean is the sample itself. */
  lemma TrailingMeanOfOne(xs: seq<real>, i: nat)
    requires i < |xs|
    ensures TrailingMean(xs, i, 1) == xs[i]
  {
    assert xs[i..i + 1] == [xs[i]];
    MeanOfOne(xs[i]);
  }

  /**
   * `compute_moving_average_filter`: each value is replaced by the mean of
   * the trailing window. A window length below one makes Python's `mean`
   * fail on an empty window, so it is excluded unless the series is empty.
   */
  function ComputeMovingAverageFilter(series: seq<Sample>, windowLength: int): (r: seq<Sample>)
    requires windowLength >= 1 || |series| == 0
    ensures SameTimes(r, series)
    ensures forall i :: 0 <= i < |series| ==>
      r[i].v == Mean(Values(series)[AverageWindowStart(i, windowLength)..i + 1])
    ensures forall i :: 0 <= i < |series| ==>
      MinOf(Values(series)[AverageWindowStart(i, windowLength)..i + 1]) <= r[i].v
        <= MaxOf(Values(series)[AverageWindowStart(i, windowLength)..i + 1])
    ensures windowLength == 1 ==> Values(r) == Values(series)
  {
    var vals := Values(series);
    var r := seq(|series|, i requires 0 <= i < |series| => Sample(series[i].t, TrailingMean(vals, i, windowLength)));
    assert windowLength == 1 ==> forall i :: 0 <= i < |series| ==> r[i].v == vals[i] by {
      if windowLength == 1 {
        forall i | 0 <= i < |series| ensures r[i].v == vals[i] {
          TrailingMeanOfOne(vals, i);
        }
      }
    }
    r
  }

  /** The trailing means of a list of numbers. */
  function TrailingMeans(xs: seq<real>, windowLength: int): (r: seq<real>)
    requires windowLength >= 1 || |xs| == 0
    ensures |r| == |xs|
    ensures forall i :: 0 <= i < |xs| ==> r[i] == TrailingMean(xs, i, windowLength)
    ensures windowLength == 1 ==> r == xs
  {
    var r := seq(|xs|, i requires 0 <= i < |xs| => TrailingMean(xs, i, windowLength));
    assert windowLength == 1 ==> forall i :: 0 <= i < |xs| ==> r[i] == xs[i] by {
      if windowLength == 1 {
        forall i | 0 <= i < |xs| ensures r[i] == xs[i] {
          TrailingMeanOfOne(xs, i);
        }
      }
    }
    r
  }

  /** `compute_moving_average_filter_aL`: the trailing means of the three raw axes. */
  function ComputeMovingAverageFilterAL(xs: seq<real>, ys: seq<real>, zs: seq<real>, windowLength: int)
    : (r: (seq<real>, seq<real>, seq<real>))
    requires windowLength >= 1 || (|xs| == 0 && |ys| == 0 && |zs| == 0)
    ensures |r.0| == |xs| && |r.1| == |ys| && |r.2| == |zs|
    ensures forall i :: 0 <= i < |xs| ==>
      MinOf(xs[AverageWindowStart(i, windowLength)..i + 1]) <= r.0[i] <= MaxOf(xs[AverageWindowStart(i, windowLength)..i + 1])
    ensures forall i :: 0 <= i < |ys| ==>
      MinOf(ys[AverageWindowStart(i, windowLength)..i + 1]) <= r.1[i] <= MaxOf(ys[AverageWindowStart(i, windowLength)..i + 1])
    ensures forall i :: 0 <= i < |zs| ==>
      MinOf(zs[AverageWindowStart(i, windowLength)..i + 1]) <= r.2[i] <= MaxOf(zs[AverageWindowStart(i, windowLength)..i + 1])
    ensures windowLength == 1 ==> r == (xs, ys, zs)
  {
    (TrailingMeans(xs, windowLength), TrailingMeans(ys, windowLength), TrailingMeans(zs, windowLength))
  }

  /**
   * The index the threshold reads at `i`: two samples back, except at 0, 1
   * and 2. The threshold is causal: it never reads ahead of `i`, and lags
   * it by at most two samples.
   */
  function ThresholdSource(i: nat): (j: nat)
    ensures j <= i && i - j <= 2
  {
    if i - 2 > 0 then i - 2 else i
  }

  /**
   * `compute_threshold`: the lagged filtered value, clamped below at the
   * resting floor.
   */
  function ComputeThreshold(data: seq<Sample>): (r: seq<Sample>)
    ensures SameTimes(r, data)
    ensures forall i :: 0 <= i < |data| ==> r[i].v >= ThresholdFloor
    ensures forall i :: 0 <= i < |data| ==> r[i].v >= data[ThresholdSource(i)].v
    ensures forall i :: 0 <= i < |data| ==> r[i].v == ThresholdFloor || r[i].v == data[ThresholdSource(i)].v
  {
    seq(|data|, i requires 0 <= i < |data| =>
      Sample(data[i].t, if ThresholdFloor >= data[ThresholdSource(i)].v then ThresholdFloor else data[ThresholdSource(i)].v))
  }

  /**
   * For the first three samples the threshold is at least the signal itself,
   * so the signal can never be above its own threshold there.
   */
  lemma ThresholdCoversStart(data: seq<Sample>, i: nat)
    requires i < |data| && i <= 2
    ensures !(data[i].v > ComputeThreshold(data)[i].v)
  {
  }
}
