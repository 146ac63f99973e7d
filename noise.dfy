/**
 * The noise estimator: a duration-based trailing mean of squared values
 * (step_counter.py:198-216). Despite the source's name no square root is
 * taken.
 */
module Noise {
  import opened Series
  import opened Stats

  /** The squared values of a series, one per sample and none negative. */
  function Squares(data: seq<Sample>): (r: seq<real>)
    ensures |r| == |data|
    ensures forall i :: 0 <= i < |r| ==> r[i] >= 0.0
  {
    seq(|data|, i requires 0 <= i < |data| => data[i].v * data[i].v)
  }

  /**
   * `root_mean_square`: the mean of the squared values, 0 for an empty list.
   * The result is never negative and lies within the range of the squares.
   */
  function RootMeanSquare(data: seq<Sample>): (r: real)
    ensures r >= 0.0
    ensures |data| == 0 ==> r == 0.0
    ensures |data| > 0 ==> MinOf(Squares(data)) <= r <= MaxOf(Squares(data))
  {
    if |data| > 0 then
      var sq := Squares(data);
      MinMaxAreElements(sq);
      Mean(sq)
    else 0.0
  }

  /** On a constant series of value `c` the result is `c * c`: a mean of squares, not its root. */
  lemma RootMeanSquareOfConstant(data: seq<Sample>, c: real)
    requires |data| > 0
    requires forall i :: 0 <= i < |data| ==> data[i].v == c
    ensures RootMeanSquare(data) == c * c
  {
    var sq := Squares(data);
    assert forall i :: 0 <= i < |sq| ==> sq[i] == c * c;
    assert MinOf(sq) == c * c && MaxOf(sq) == c * c by {
      MinMaxAreElements(sq);
    }
  }

  /**
   * The index `find_index_s_away` returns when it scans `data[..i + 1]`
   * backwards from `i`: the first index met whose time is at least `s`
   * before `last`, or 0 when there is none.
   */
  function SearchBack(s: real, data: seq<Sample>, last: real, i: int): (k: nat)
    requires -1 <= i < |data|
    ensures i >= 0 ==> k <= i
    ensures i >= 0 ==>
      (last - data[k].t >= s && forall j :: k < j <= i ==> last - data[j].t < s)
      || (k == 0 && forall j :: 0 <= j <= i ==> last - data[j].t < s)
    decreases i + 1
  {
    if i < 0 then 0
    else if last - data[i].t >= s then i
    else SearchBack(s, data, last, i - 1)
  }

  /**
   * `find_index_s_away` as a value: for a non-empty list, the largest index
   * whose time is at least `s` before the last sample's, or 0 when there is
   * none; 0 for the empty list.
   */
  function IndexSAway(s: real, data: seq<Sample>): (k: nat)
    ensures |data| == 0 ==> k == 0
    ensures |data| > 0 ==> k < |data|
    ensures |data| > 0 ==>
      var last := data[|data| - 1].t;
      (last - data[k].t >= s && forall j :: k < j < |data| ==> last - data[j].t < s)
      || (k == 0 && forall j :: 0 <= j < |data| ==> last - data[j].t < s)
  {
    if |data| > 0 then SearchBack(s, data, data[|data| - 1].t, |data| - 1) else 0
  }

  /** `find_index_s_away`: the backward scan with early return. */
  method FindIndexSAway(s: real, data: seq<Sample>) returns (k: nat)
    ensures k == IndexSAway(s, data)
    ensures |data| > 0 ==> k < |data|
    ensures |data| > 0 && s <= 0.0 ==> k == |data| - 1
  {
    if |data| > 0 {
      var t := data[|data| - 1].t;
      var i := |data|;
      while i > 0
        invariant 0 <= i <= |data|
        invariant forall j :: i <= j < |data| ==> t - data[j].t < s
      {
        i := i - 1;
        if t - data[i].t >= s {
          return i;
        }
      }
    }
    return 0;
  }

  /** First index of the trailing time window that ends at `i`. */
  function RmsWindowStart(data: seq<Sample>, timeWindow: real, i: nat): (k: nat)
    requires i < |data|
    ensures k <= i
  {
    IndexSAway(timeWindow, data[..i + 1])
  }

  /**
   * The window of the noise estimate at `i` starts at the latest sample that
   * is at least `timeWindow` older than sample `i`, or at 0 when no sample is.
   */
  lemma RmsWindowStartIsLatest(data: seq<Sample>, timeWindow: real, i: nat)
    requires i < |data|
    ensures var k := RmsWindowStart(data, timeWindow, i);
      (data[i].t - data[k].t >= timeWindow && forall j :: k < j <= i ==> data[i].t - data[j].t < timeWindow)
      || (k == 0 && forall j :: 0 <= j <= i ==> data[i].t - data[j].t < timeWindow)
  {
    var prefix := data[..i + 1];
    assert prefix[|prefix| - 1] == data[i];
    assert forall j :: 0 <= j <= i ==> prefix[j] == data[j];
  }

  /** The noise estimate at `i`: the mean square over the trailing time window. */
  function RmsAt(data: seq<Sample>, timeWindow: real, i: nat): (r: real)
    requires i < |data|
    ensures r >= 0.0
    ensures var sq := Squares(data[RmsWindowStart(data, timeWindow, i)..i + 1]);
      |sq| > 0 && MinOf(sq) <= r <= MaxOf(sq)
  {
    RootMeanSquare(data[RmsWindowStart(data, timeWindow, i)..i + 1])
  }

  /**
   * `compute_root_mean_square`: at each index, the mean of the squared values
   * over the non-empty trailing time window ending there.
   */
  function ComputeRootMeanSquare(data: seq<Sample>, timeWindow: real): (r: seq<Sample>)
    ensures SameTimes(r, data)
    ensures forall i :: 0 <= i < |data| ==> r[i].v == RmsAt(data, timeWindow, i)
    ensures forall i :: 0 <= i < |data| ==> r[i].v >= 0.0
  {
    seq(|data|, i requires 0 <= i < |data| => Sample(data[i].t, RmsAt(data, timeWindow, i)))
  }
}
