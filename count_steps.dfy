/**
 * `count_steps` (step_counter.py:110-189) as the loop the source writes,
 * proved to compute `Validator.Detect`. The locals that survive an
 * iteration are kept together in one `State`.
 */
module StepCounter {
  import opened Wrappers
  import opened Config
  import opened Series
  import opened Geometry
  import Cadence
  import opened Validator

  /**
   * Rules 5, 6 and 7+8 (lines 162-164) for the peak `max(data[pos_cross_index:i + 1])`
   * of lines 156-158.
   */
  method CheckRules(sig: Signals, st: State, i: nat, peak: Sample) returns (ok: bool)
    requires Aligned(sig) && i < |sig.data| && Wf(sig, st, i) && Falling(sig, st, i)
    requires peak == Peak(sig, st, i)
    ensures ok == RulesHold(sig, st, i)
  {
    var data, peaks := sig.data, st.peaks;
    CadenceOfPacedPeaks(peaks);
    // None of the three can raise, so evaluating all of them agrees with
    // Python's short-circuit `and`
    var intervalOk := |peaks| == 0 || (|peaks| > 0 && TStMin < peak.t - peaks[|peaks| - 1].t < TStMax);
    var cadenceOk := Cadence.Cadence(CadenceWindow(peaks)) < StfMax;
    var amplitudeOk := AccMin <= FirstMax(data[st.posCrossIndex..i]).v <= AccMax;
    assert intervalOk == IntervalOk(peaks, peak);
    assert cadenceOk == CadenceOk(peaks);
    assert amplitudeOk == AmplitudeOk(sig, st.posCrossIndex, i);
    ok := intervalOk && cadenceOk && amplitudeOk;
  }

  /** Lines 167-171: the step is accepted and its peak recorded. */
  method AcceptPeak(sig: Signals, st: State, i: nat, next: State, peak: Sample) returns (r: State)
    requires Aligned(sig) && i < |sig.data| && Wf(sig, st, i) && Falling(sig, st, i)
    requires RulesHold(sig, st, i) && next == Disarm(sig, st, i) && peak == Peak(sig, st, i)
    ensures r == Accept(sig, st, i)
  {
    r := next.(peaks := st.peaks + [peak], lastValidStepIndex := Some(IndexOf(sig.data, peak)),
               steps := st.steps + 1);
  }

  /**
   * Lines 149-176, the branch taken at a downward crossing while armed:
   * the peak evaluation, or the sample at which Python raises.
   */
  method EvaluateCrossing(sig: Signals, st: State, i: nat) returns (r: Scan)
    requires Aligned(sig) && i < |sig.data| && Wf(sig, st, i) && Falling(sig, st, i)
    ensures r == Evaluate(sig, st, i)
  {
    var data := sig.data;
    // Python's data[i - 1] and lambdaD[i - 1] wrap around at i == 0
    var prev := if i == 0 then |data| - 1 else i - 1;
    var prevThreshold := if i == 0 then |sig.lambdaD| - 1 else i - 1;
    var negCrossPt := SegIntersect(AsVec(data[i]), AsVec(data[prev]),
                                   AsVec(sig.lambdaD[i]), AsVec(sig.lambdaD[prevThreshold]));
    var next := st.(armed := false, crossNeg := st.crossNeg + [negCrossPt],
                    crossNegPt := st.crossNegPt + [data[i]]);
    assert next == Disarm(sig, st, i);
    var peak := FirstMax(data[st.posCrossIndex..i + 1]);
    assert peak == Peak(sig, st, i);
    if st.numPeaks >= StMin {
      var ok := CheckRules(sig, st, i, peak);
      if ok {
        if negCrossPt.None? || st.posCrossPt.None? {
          return Crashed(i);
        }
        if negCrossPt.value.x - st.posCrossPt.value.x > TDwell {
          next := AcceptPeak(sig, st, i, next, peak);
        } else {
          next := next.(numPeaks := 0);
        }
      } else {
        next := next.(numPeaks := 0);
      }
    }
    return Scanning(next);
  }

  /** Lines 178-187, the branch taken while disarmed and not rising: rules 2 and 3. */
  method ApplyIdleRules(sig: Signals, st: State, i: nat) returns (r: State)
    requires Aligned(sig) && i < |sig.data| && Wf(sig, st, i) && !st.armed
    ensures r == Idle(sig, st, i)
  {
    var data := sig.data;
    r := st;
    // Rule 2
    if r.lastValidStepIndex.Some? && data[i].t - data[r.lastValidStepIndex.value].t > TStMax
       && r.numPeaks != 0 && sig.rms[i] >= StRms
    {
      r := r.(numPeaks := 0);
    }
    assert r == AfterStaleReset(sig, st, i);
    // Rule 3
    if r.numPeaks >= StMin && r.steps > 0 && data[i].t - data[r.lastValidStepIndex.value].t >= TStMax {
      r := r.(numPeaks := 0, steps := r.steps - 1);
    }
  }

  /** Lines 137-145: arm, count the cycle and record the upward crossing. */
  method ArmAtCrossing(sig: Signals, st: State, i: nat) returns (r: State)
    requires Aligned(sig) && i < |sig.data| && Wf(sig, st, i) && Rising(sig, st, i)
    ensures r == Arm(sig, st, i)
  {
    var data, lambdaD := sig.data, sig.lambdaD;
    // Python's data[i - 1] and lambdaD[i - 1] wrap around at i == 0
    var prev := if i == 0 then |data| - 1 else i - 1;
    var prevThreshold := if i == 0 then |lambdaD| - 1 else i - 1;
    var posCrossPt := SegIntersect(AsVec(data[i]), AsVec(data[prev]),
                                   AsVec(lambdaD[i]), AsVec(lambdaD[prevThreshold]));
    r := st.(armed := true, numPeaks := st.numPeaks + 1, crossPosPt := st.crossPosPt + [data[i]],
             posCrossPt := posCrossPt, crossPos := st.crossPos + [posCrossPt], posCrossIndex := i);
  }

  /** One iteration of the loop at sample `i` (lines 133-187). */
  method Iteration(sig: Signals, st: State, i: nat) returns (r: Scan)
    requires Aligned(sig) && i < |sig.data| && Wf(sig, st, i)
    ensures r == Step(sig, st, i)
  {
    var point, threshold := sig.data[i], sig.lambdaD[i];
    if point.v > threshold.v && !st.armed
       && (sig.axL[i] < AxMin || sig.ayL[i] > AyMin || sig.azL[i] < AzMin || sig.azL[i] > AzMin)
    {
      var next := ArmAtCrossing(sig, st, i);
      r := Scanning(next);
    } else if point.v < threshold.v && st.armed {
      r := EvaluateCrossing(sig, st, i);
    } else if !st.armed {
      var next := ApplyIdleRules(sig, st, i);
      r := Scanning(next);
    } else {
      r := Scanning(st);
    }
  }

  /** The iteration at sample `i` of a run that has reached it (lines 132-187). */
  method Advance(sig: Signals, st: State, i: nat) returns (r: Scan)
    requires Aligned(sig) && i < |sig.data| && Run(sig, i) == Scanning(st)
    ensures r == Run(sig, i + 1)
    ensures r.Crashed? ==> r.index == i
  {
    RunStep(sig, i);
    r := Iteration(sig, st, i);
  }

  /** The loop ends at the end of the samples or at the first raise; either way it is done. */
  lemma RunEnds(sig: Signals, k: nat)
    requires Aligned(sig) && k <= |sig.data| && (k == |sig.data| || Run(sig, k).Crashed?)
    ensures Detect(sig) == Finish(Run(sig, k))
  {
    if k < |sig.data| {
      CrashPersists(sig, k, |sig.data|);
    }
  }

  /**
   * Runs the validator over the samples. It returns the step count and
   * the recorded peaks and crossings, or the index of the sample at which
   * Python would raise a TypeError reading an undefined crossing.
   */
  method CountSteps(data: seq<Sample>, lambdaD: seq<Sample>,
                    axL: seq<real>, ayL: seq<real>, azL: seq<real>, rms: seq<real>)
    returns (outcome: Outcome)
    requires Aligned(Signals(data, lambdaD, axL, ayL, azL, rms))
    ensures outcome == Detect(Signals(data, lambdaD, axL, ayL, azL, rms))
    ensures outcome.Raised? ==> outcome.index < |data|
  {
    var sig := Signals(data, lambdaD, axL, ayL, azL, rms);
    var st := Start;
    for i := 0 to |data|
      invariant Run(sig, i) == Scanning(st)
    {
      var r := Advance(sig, st, i);
      if r.Crashed? {
        // line 165 raises a TypeError reading an undefined crossing
        RunEnds(sig, i + 1);
        return Finish(r);
      }
      st := r.st;
    }
    RunEnds(sig, |data|);
    outcome := Finish(Scanning(st));
  }
}
