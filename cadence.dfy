/** The cadence estimator (step_counter.py:192-195). */
module Cadence {
  import opened Series
  import opened Stats

  /**
   * The time gaps between consecutive items, `current - previous` over
   * `zip(steps[1:], steps)`. The contract spells the comprehension out for
   * callers; `GapsTelescope` is what it adds up to.
   */
  function Gaps(steps: seq<Sample>): (g: seq<real>)
    ensures |g| == if |steps| < 2 then 0 else |steps| - 1
    ensures forall k {:trigger g[k]} :: 0 <= k < |g| ==> g[k] == steps[k + 1].t - steps[k].t
  {
    if |steps| < 2 then [] else seq(|steps| - 1, k requires 0 <= k < |steps| - 1 => steps[k + 1].t - steps[k].t)
  }

  /** The gaps add up to the time from the first item to the last. */
  lemma {:induction false} GapsTelescope(steps: seq<Sample>)
    requires |steps| >= 1
    ensures Sum(Gaps(steps)) == steps[|steps| - 1].t - steps[0].t
  {
    if |steps| >= 2 {
      GapsTelescope(steps[1..]);
      assert Gaps(steps) == [steps[1].t - steps[0].t] + Gaps(steps[1..]);
      assert ([steps[1].t - steps[0].t] + Gaps(steps[1..]))[1..] == Gaps(steps[1..]);
    }
  }

  /** One over `span / n` is `n / span`. */
  lemma ReciprocalOfQuotient(span: real, n: real)
    requires span != 0.0 && n != 0.0
    ensures span / n != 0.0
    ensures 1.0 / (span / n) == n / span
  {
    var q := span / n;
    assert q * n == span;
    assert (n / span) * q == 1.0 by {
      assert (n / span) * span == n;
    }
  }

  /** The mean gap is the span over the number of gaps. */
  lemma MeanGap(steps: seq<Sample>)
    requires |steps| >= 2
    ensures Mean(Gaps(steps)) == (steps[|steps| - 1].t - steps[0].t) / ((|steps| - 1) as real)
  {
    GapsTelescope(steps);
    assert |Gaps(steps)| as real == (|steps| - 1) as real;
  }

  /**
   * `cadence`: 0 for fewer than two items, otherwise one over the mean gap,
   * which telescopes to `(n - 1) / (t_last - t_first)`. Python divides by
   * zero when the mean gap is 0, that is when the first and last times are
   * equal; callers must avoid that.
   */
  function Cadence(steps: seq<Sample>): (r: real)
    requires |steps| < 2 || steps[|steps| - 1].t != steps[0].t
    ensures |steps| < 2 ==> r == 0.0
    ensures |steps| >= 2 ==> r == (|steps| - 1) as real / (steps[|steps| - 1].t - steps[0].t)
  {
    if |steps| < 2 then 0.0
    else
      MeanGap(steps);
      ReciprocalOfQuotient(steps[|steps| - 1].t - steps[0].t, (|steps| - 1) as real);
      1.0 / Mean(Gaps(steps))
  }

  /** The gaps are all positive exactly when the times strictly increase. */
  lemma {:induction false} PositiveGapsIncrease(steps: seq<Sample>)
    requires forall k :: 0 <= k < |Gaps(steps)| ==> Gaps(steps)[k] > 0.0
    ensures forall j, k :: 0 <= j < k < |steps| ==> steps[j].t < steps[k].t
  {
    if |steps| >= 2 {
      var g := Gaps(steps);
      var rest := steps[1..];
      assert forall k :: 0 <= k < |Gaps(rest)| ==> Gaps(rest)[k] == g[k + 1];
      PositiveGapsIncrease(rest);
      assert forall k :: 0 < k < |steps| ==> steps[k] == rest[k - 1];
      assert steps[0].t < steps[1].t by { assert g[0] > 0.0; }
    }
  }

  /** With strictly increasing times the cadence of two or more items is positive. */
  lemma CadencePositive(steps: seq<Sample>)
    requires |steps| >= 2
    requires forall j, k :: 0 <= j < k < |steps| ==> steps[j].t < steps[k].t
    ensures steps[|steps| - 1].t > steps[0].t
    ensures Cadence(steps) > 0.0
  {
    var span := steps[|steps| - 1].t - steps[0].t;
    var n := (|steps| - 1) as real;
    assert (n / span) * span == n;
  }

  /** When every gap lies in `[lo, hi]`, the span lies between `n - 1` times each. */
  lemma SpanBetween(steps: seq<Sample>, lo: real, hi: real)
    requires |steps| >= 2
    requires forall k :: 0 <= k < |Gaps(steps)| ==> lo <= Gaps(steps)[k] <= hi
    ensures ((|steps| - 1) as real) * lo <= steps[|steps| - 1].t - steps[0].t <= ((|steps| - 1) as real) * hi
  {
    SumBetween(Gaps(steps), lo, hi);
    GapsTelescope(steps);
  }

  /**
   * When every gap lies in `[lo, hi]` with `lo > 0`, the cadence lies in
   * `[1 / hi, 1 / lo]`.
   */
  lemma CadenceBetween(steps: seq<Sample>, lo: real, hi: real)
    requires |steps| >= 2 && 0.0 < lo <= hi
    requires forall k :: 0 <= k < |Gaps(steps)| ==> lo <= Gaps(steps)[k] <= hi
    ensures steps[|steps| - 1].t > steps[0].t
    ensures 1.0 / hi <= Cadence(steps) <= 1.0 / lo
  {
    SpanBetween(steps, lo, hi);
    InverseBounds(steps[|steps| - 1].t - steps[0].t, (|steps| - 1) as real, lo, hi);
  }

  /** From `n * lo <= span <= n * hi` with positive `n` and `lo`: `1 / hi <= n / span <= 1 / lo`. */
  lemma InverseBounds(span: real, n: real, lo: real, hi: real)
    requires 0.0 < lo <= hi && n >= 1.0
    requires n * lo <= span <= n * hi
    ensures span > 0.0
    ensures 1.0 / hi <= n / span <= 1.0 / lo
  {
    assert n * lo >= 1.0 * lo;
    var c := n / span;
    assert c * span == n;
    assert c > 0.0;
    assert c * lo * n <= c * span == n;
    assert c * lo <= 1.0;
    assert c * hi >= 1.0 by {
      assert c * hi * n >= c * span;
    }
    assert (1.0 / lo) * lo == 1.0;
    assert (1.0 / hi) * hi == 1.0;
  }
}
