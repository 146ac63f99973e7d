/**
 * The step validator of `count_steps` (step_counter.py:110-189) as a pure
 * state machine: `Step` is one iteration of the loop over the samples, `Run`
 * folds it over a prefix, and `Detect` is what the function returns or the
 * sample at which it raises.
 */
module Validator {
  import opened Wrappers
  import opened Config
  import opened Series
  import opened Geometry
  import opened Cadence
  import Conditioning

  /**
   * The six series `count_steps` reads by sample index: the filtered
   * magnitude, its adaptive threshold, the three smoothed axis signals and
   * the windowed noise level.
   */
  datatype Signals = Signals(
    data: seq<Sample>, lambdaD: seq<Sample>,
    axL: seq<real>, ayL: seq<real>, azL: seq<real>, rms: seq<real>)

  /** Every series can be read at every index of `data` (no IndexError). */
  predicate Aligned(sig: Signals)
  {
    && |sig.lambdaD| >= |sig.data|
    && |sig.axL| >= |sig.data| && |sig.ayL| >= |sig.data| && |sig.azL| >= |sig.data|
    && |sig.rms| >= |sig.data|
  }

  /**
   * The locals of `count_steps` that survive from one iteration to the next.
   * `posCrossIndex` is read only while `armed`, so its initial `None` is
   * represented by 0.
   */
  datatype State = State(
    steps: int, numPeaks: int, armed: bool, posCrossIndex: nat,
    lastValidStepIndex: Option<nat>, posCrossPt: Option<Vec>,
    peaks: seq<Sample>, crossPos: seq<Option<Vec>>, crossNeg: seq<Option<Vec>>,
    crossPosPt: seq<Sample>, crossNegPt: seq<Sample>)

  const Start: State := State(0, 0, false, 0, None, None, [], [], [], [], [])

  /** The loop either goes on or has raised a TypeError at a sample. */
  datatype Scan = Scanning(st: State) | Crashed(index: nat)

  /** The tuple `count_steps` returns; `cadences` is never appended to. */
  datatype Report = Report(
    steps: int, peaks: seq<Sample>, crossPos: seq<Option<Vec>>, crossNeg: seq<Option<Vec>>,
    crossPosPt: seq<Sample>, crossNegPt: seq<Sample>, cadences: seq<real>)

  datatype Outcome = Returned(report: Report) | Raised(index: nat)

  function AsVec(p: Sample): Vec { Vec(p.t, p.v) }

  /**
   * The intersection of the signal segment and the threshold segment ending
   * at sample `i`; at `i == 0` Python's `[i - 1]` reads the last element.
   */
  function Crossing(sig: Signals, i: nat): Option<Vec>
    requires Aligned(sig) && i < |sig.data|
  {
    SegIntersect(AsVec(sig.data[i]), AsVec(sig.data[PyPrev(|sig.data|, i)]),
                 AsVec(sig.lambdaD[i]), AsVec(sig.lambdaD[PyPrev(|sig.lambdaD|, i)]))
  }

  /**
   * The arm gate on the smoothed axes. Its z test compares against the same
   * bound on both sides, so it lets every sample through except one whose
   * z value is exactly that bound.
   */
  predicate AxisGate(sig: Signals, i: nat): (open: bool)
    requires Aligned(sig) && i < |sig.data|
    ensures !open <==> sig.axL[i] >= AxMin && sig.ayL[i] <= AyMin && sig.azL[i] == AzMin
  {
    sig.axL[i] < AxMin || sig.ayL[i] > AyMin || sig.azL[i] < AzMin || sig.azL[i] > AzMin
  }

  /** The first branch of the loop: an upward crossing while disarmed. */
  predicate Rising(sig: Signals, st: State, i: nat)
    requires Aligned(sig) && i < |sig.data|
  {
    sig.data[i].v > sig.lambdaD[i].v && !st.armed && AxisGate(sig, i)
  }

  /** The second branch: a downward crossing while armed. */
  predicate Falling(sig: Signals, st: State, i: nat)
    requires Aligned(sig) && i < |sig.data|
  {
    sig.data[i].v < sig.lambdaD[i].v && st.armed
  }

  /**
   * The branches of the loop split the samples: rising and falling never
   * meet, and the idle branch is reached exactly when neither holds while
   * disarmed.
   */
  lemma BranchesExclusive(sig: Signals, st: State, i: nat)
    requires Aligned(sig) && i < |sig.data|
    ensures !(Rising(sig, st, i) && Falling(sig, st, i))
    ensures !st.armed && !Rising(sig, st, i) ==> !Falling(sig, st, i)
    ensures st.armed ==> !Rising(sig, st, i)
  {
  }

  /** Every two consecutive accepted peaks are more than T_stmin and less than T_stmax apart. */
  predicate Paced(peaks: seq<Sample>)
  {
    forall k :: 0 <= k < |Gaps(peaks)| ==> TStMin < Gaps(peaks)[k] < TStMax
  }

  /**
   * What every read of the loop needs of its locals after the first `k`
   * samples: the last accepted peak's index is a sample index whenever a
   * step is counted, the accepted peaks are paced (so their cadence is
   * defined), and an armed state's upward crossing is an earlier sample.
   */
  ghost predicate Wf(sig: Signals, st: State, k: nat)
    requires Aligned(sig)
  {
    && k <= |sig.data|
    && (st.steps > 0 ==> st.lastValidStepIndex.Some?)
    && (st.lastValidStepIndex.Some? ==> st.lastValidStepIndex.value < |sig.data|)
    && Paced(st.peaks)
    && (st.armed ==> st.posCrossIndex < k)
  }

  /**
   * Everything the loop keeps true of its locals after the first `k`
   * samples: besides `Wf`, the peaks are samples of the signal and the last
   * one is at `lastValidStepIndex`, each recorded upward crossing is
   * followed by at most one downward crossing, and while armed the state
   * remembers the crossing at `posCrossIndex` and the signal has not
   * dropped below the threshold since.
   */
  ghost predicate Inv(sig: Signals, st: State, k: nat)
    requires Aligned(sig)
  {
    && Wf(sig, st, k)
    && 0 <= st.steps <= |st.peaks|
    && (st.lastValidStepIndex.Some? <==> |st.peaks| > 0)
    && st.numPeaks >= 0
    && (st.lastValidStepIndex.Some? ==>
          sig.data[st.lastValidStepIndex.value] == st.peaks[|st.peaks| - 1])
    && (forall j :: 0 <= j < |st.peaks| ==> st.peaks[j] in sig.data)
    && |st.crossPos| == |st.crossPosPt|
    && |st.crossNeg| == |st.crossNegPt|
    && |st.crossPos| == |st.crossNeg| + (if st.armed then 1 else 0)
    && (st.armed ==>
          && st.posCrossPt == Crossing(sig, st.posCrossIndex)
          && sig.data[st.posCrossIndex].v > sig.lambdaD[st.posCrossIndex].v
          && sig.data[k - 1].v >= sig.lambdaD[k - 1].v)
  }

  /** `b` only appends to the records of `a`: peaks, crossings and crossing samples. */
  predicate Extends(a: State, b: State)
  {
    && a.peaks <= b.peaks && a.crossPos <= b.crossPos && a.crossNeg <= b.crossNeg
    && a.crossPosPt <= b.crossPosPt && a.crossNegPt <= b.crossNegPt
  }

  lemma ExtendsTransitive(a: State, b: State, c: State)
    requires Extends(a, b) && Extends(b, c)
    ensures Extends(a, c)
  {
  }

  // ---------------------------------------------------------------------
  // Rules 5 to 9 of the evaluation at a downward crossing (lines 161-165)
  // ---------------------------------------------------------------------

  /** Rule 5: the new peak is paced against the previous accepted one. */
  predicate IntervalOk(peaks: seq<Sample>, peak: Sample)
  {
    |peaks| == 0 || (|peaks| > 0 && TStMin < peak.t - peaks[|peaks| - 1].t < TStMax)
  }

  lemma PacedAppend(peaks: seq<Sample>, p: Sample)
    requires Paced(peaks) && IntervalOk(peaks, p)
    ensures Paced(peaks + [p])
  {
    var s := peaks + [p];
    forall k | 0 <= k < |Gaps(s)|
      ensures TStMin < Gaps(s)[k] < TStMax
    {
      if k < |peaks| - 1 {
        assert Gaps(s)[k] == Gaps(peaks)[k];
      } else {
        assert Gaps(s)[k] == p.t - peaks[|peaks| - 1].t;
      }
    }
  }

  /**
   * `peaks[len(peaks) - St_min:]`. With fewer than `St_min` peaks the bound
   * is negative and counts from the end, so the window is not simply "all
   * peaks so far".
   */
  function CadenceWindow(peaks: seq<Sample>): (w: seq<Sample>)
    ensures |peaks| >= StMin ==> w == peaks[|peaks| - StMin..]
    ensures 3 <= |peaks| < StMin ==> w == peaks[2 * |peaks| - StMin..]
    ensures |peaks| < 3 ==> w == peaks
  {
    PySliceFrom(peaks, |peaks| - StMin)
  }

  lemma CadenceWindowIsSuffix(peaks: seq<Sample>) returns (a: nat)
    ensures a <= |peaks| && CadenceWindow(peaks) == peaks[a..]
  {
    if |peaks| >= StMin {
      a := |peaks| - StMin;
    } else if |peaks| >= 3 {
      a := 2 * |peaks| - StMin;
    } else {
      a := 0;
    }
  }

  /** A suffix of paced peaks is paced. */
  lemma PacedSuffix(peaks: seq<Sample>, a: nat)
    requires a <= |peaks| && Paced(peaks)
    ensures Paced(peaks[a..])
  {
    var s := peaks[a..];
    forall k | 0 <= k < |Gaps(s)|
      ensures TStMin < Gaps(s)[k] < TStMax
    {
      assert Gaps(s)[k] == Gaps(peaks)[a + k];
    }
  }

  /** Paced peaks strictly increase in time. */
  lemma PacedIncreasing(peaks: seq<Sample>)
    requires Paced(peaks)
    ensures forall j, k :: 0 <= j < k < |peaks| ==> peaks[j].t < peaks[k].t
  {
    PositiveGapsIncrease(peaks);
  }

  /**
   * The cadence of the window of paced peaks is defined (no
   * ZeroDivisionError) and lies between 1/T_stmax and 1/T_stmin.
   */
  lemma CadenceOfPacedPeaks(peaks: seq<Sample>)
    requires Paced(peaks)
    ensures var w := CadenceWindow(peaks);
      |w| < 2 || w[|w| - 1].t != w[0].t
    ensures var w := CadenceWindow(peaks);
      |w| >= 2 ==> 1.0 / TStMax <= Cadence.Cadence(w) <= 1.0 / TStMin
  {
    var a := CadenceWindowIsSuffix(peaks);
    var w := peaks[a..];
    PacedSuffix(peaks, a);
    if |w| >= 2 {
      CadenceBetween(w, TStMin, TStMax);
    }
  }

  /** Rule 6: the cadence of the recent peaks stays below Stf_max. */
  predicate CadenceOk(peaks: seq<Sample>)
    requires Paced(peaks)
  {
    CadenceOfPacedPeaks(peaks);
    Cadence.Cadence(CadenceWindow(peaks)) < StfMax
  }

  /** Rules 7 and 8: the peak of the samples from the upward crossing up to, not including, `upTo`. */
  predicate AmplitudeOk(sig: Signals, from: nat, upTo: nat)
    requires from < upTo <= |sig.data|
  {
    AccMin <= FirstMax(sig.data[from..upTo]).v <= AccMax
  }

  /** The peak of the current step interval, `max(data[pos_cross_index:i + 1])`. */
  function Peak(sig: Signals, st: State, i: nat): (p: Sample)
    requires st.posCrossIndex <= i < |sig.data|
    ensures p in sig.data
  {
    var s := sig.data[st.posCrossIndex..i + 1];
    assert s[FirstMaxIndex(s)] == sig.data[st.posCrossIndex + FirstMaxIndex(s)];
    FirstMax(s)
  }

  /** The peak is a sample of the interval at which no sample of the interval is larger. */
  lemma PeakIsIntervalMax(sig: Signals, st: State, i: nat)
    requires st.posCrossIndex <= i < |sig.data|
    ensures exists j :: st.posCrossIndex <= j <= i && sig.data[j] == Peak(sig, st, i)
    ensures forall j :: st.posCrossIndex <= j <= i ==> sig.data[j].v <= Peak(sig, st, i).v
  {
    var s := sig.data[st.posCrossIndex..i + 1];
    var k := FirstMaxIndex(s);
    assert s[k] == sig.data[st.posCrossIndex + k];
    assert forall j :: st.posCrossIndex <= j <= i ==> sig.data[j] == s[j - st.posCrossIndex];
  }

  /**
   * Rules 5, 6 and 7+8, in the order Python's `and` evaluates them; rule 9,
   * the dwell time between the two crossings, is read after them.
   */
  predicate RulesHold(sig: Signals, st: State, i: nat)
    requires Aligned(sig) && i < |sig.data| && Wf(sig, st, i) && Falling(sig, st, i)
  {
    IntervalOk(st.peaks, Peak(sig, st, i)) && CadenceOk(st.peaks) && AmplitudeOk(sig, st.posCrossIndex, i)
  }

  // ---------------------------------------------------------------------
  // One iteration
  // ---------------------------------------------------------------------

  /** Lines 137-145: arm, count the cycle and record the upward crossing. */
  function Arm(sig: Signals, st: State, i: nat): (r: State)
    requires Aligned(sig) && i < |sig.data| && Wf(sig, st, i) && Rising(sig, st, i)
    ensures Wf(sig, r, i + 1)
  {
    var c := Crossing(sig, i);
    st.(armed := true, numPeaks := st.numPeaks + 1, crossPosPt := st.crossPosPt + [sig.data[i]],
        posCrossPt := c, crossPos := st.crossPos + [c], posCrossIndex := i)
  }

  /** Lines 149-153 and 176: disarm and record the downward crossing. */
  function Disarm(sig: Signals, st: State, i: nat): (r: State)
    requires Aligned(sig) && i < |sig.data| && Wf(sig, st, i) && Falling(sig, st, i)
    ensures Wf(sig, r, i + 1)
  {
    var neg := Crossing(sig, i);
    st.(armed := false, crossNeg := st.crossNeg + [neg], crossNegPt := st.crossNegPt + [sig.data[i]])
  }

  /** Lines 167-171: a step is accepted; its peak is appended and counted. */
  function Accept(sig: Signals, st: State, i: nat): (r: State)
    requires Aligned(sig) && i < |sig.data| && Wf(sig, st, i) && Falling(sig, st, i)
    requires RulesHold(sig, st, i)
    ensures Wf(sig, r, i + 1)
  {
    var peak := Peak(sig, st, i);
    PacedAppend(st.peaks, peak);
    Disarm(sig, st, i).(peaks := st.peaks + [peak], lastValidStepIndex := Some(IndexOf(sig.data, peak)),
                        steps := st.steps + 1)
  }

  /**
   * Lines 149-176: record the downward crossing, then (rule 4) once enough
   * cycles were seen, accept the peak if rules 5 to 9 hold and reset the
   * cycle count otherwise. Rule 9 reads the two crossing times, which
   * raises when either crossing is undefined.
   */
  function Evaluate(sig: Signals, st: State, i: nat): (r: Scan)
    requires Aligned(sig) && i < |sig.data| && Wf(sig, st, i) && Falling(sig, st, i)
    ensures r.Scanning? ==> Wf(sig, r.st, i + 1)
  {
    var neg := Crossing(sig, i);
    var st1 := Disarm(sig, st, i);
    if st.numPeaks < StMin then Scanning(st1)
    else if !RulesHold(sig, st, i) then Scanning(st1.(numPeaks := 0))
    else if neg.None? || st.posCrossPt.None? then Crashed(i)
    else if neg.value.x - st.posCrossPt.value.x > TDwell then Scanning(Accept(sig, st, i))
    else Scanning(st1.(numPeaks := 0))
  }

  /** Rule 2 (lines 180-183): a long pause with noise above the floor restarts the cycle count. */
  predicate StaleReset(sig: Signals, st: State, i: nat)
    requires Aligned(sig) && i < |sig.data| && Wf(sig, st, i)
  {
    && st.lastValidStepIndex.Some?
    && sig.data[i].t - sig.data[st.lastValidStepIndex.value].t > TStMax
    && st.numPeaks != 0
    && sig.rms[i] >= StRms
  }

  function AfterStaleReset(sig: Signals, st: State, i: nat): (r: State)
    requires Aligned(sig) && i < |sig.data| && Wf(sig, st, i) && !st.armed
    ensures Wf(sig, r, i)
  {
    if StaleReset(sig, st, i) then st.(numPeaks := 0) else st
  }

  /** Rule 3 (lines 185-187): a full cycle count but no step for T_stmax withdraws the last step. */
  predicate Revokes(sig: Signals, st: State, i: nat)
    requires Aligned(sig) && i < |sig.data| && Wf(sig, st, i)
  {
    st.numPeaks >= StMin && st.steps > 0
    && sig.data[i].t - sig.data[st.lastValidStepIndex.value].t >= TStMax
  }

  /** Lines 178-187, the branch taken while disarmed and not rising. */
  function Idle(sig: Signals, st: State, i: nat): (r: State)
    requires Aligned(sig) && i < |sig.data| && Wf(sig, st, i) && !st.armed
    ensures Wf(sig, r, i + 1)
  {
    var s := AfterStaleReset(sig, st, i);
    if Revokes(sig, s, i) then s.(numPeaks := 0, steps := s.steps - 1) else s
  }

  /** One iteration of the loop at sample `i`. */
  function Step(sig: Signals, st: State, i: nat): (r: Scan)
    requires Aligned(sig) && i < |sig.data| && Wf(sig, st, i)
    ensures r.Scanning? ==> Wf(sig, r.st, i + 1)
    ensures r.Crashed? ==> r.index == i
  {
    if Rising(sig, st, i) then Scanning(Arm(sig, st, i))
    else if Falling(sig, st, i) then Evaluate(sig, st, i)
    else if !st.armed then Scanning(Idle(sig, st, i))
    else Scanning(st)
  }

  /** The loop after its first `k` iterations. */
  function Run(sig: Signals, k: nat): (r: Scan)
    requires Aligned(sig) && k <= |sig.data|
    ensures r.Scanning? ==> Wf(sig, r.st, k)
    ensures r.Crashed? ==> r.index < k
    decreases k, 0
  {
    if k == 0 then Scanning(Start) else Iterate(sig, k - 1)
  }

  /** Iteration `i` of the loop, applied to the state the run has reached. */
  function Iterate(sig: Signals, i: nat): (r: Scan)
    requires Aligned(sig) && i < |sig.data|
    ensures r.Scanning? ==> Wf(sig, r.st, i + 1)
    ensures r.Crashed? ==> r.index <= i
    decreases i, 1
  {
    match Run(sig, i)
    case Crashed(j) => Crashed(j)
    case Scanning(st) => Step(sig, st, i)
  }

  /** One more iteration of a run that has not raised. */
  lemma RunStep(sig: Signals, i: nat)
    requires Aligned(sig) && i < |sig.data| && Run(sig, i).Scanning?
    ensures Run(sig, i + 1) == Step(sig, Run(sig, i).st, i)
  {
  }

  /** What `count_steps` returns, or the sample at which it raises. */
  function Detect(sig: Signals): (r: Outcome)
    requires Aligned(sig)
    ensures r.Raised? ==> r.index < |sig.data|
  {
    Finish(Run(sig, |sig.data|))
  }

  /** Line 189 or the raise: the returned tuple, whose `cadences` list is never appended to. */
  function Finish(r: Scan): Outcome
  {
    match r
    case Crashed(j) => Raised(j)
    case Scanning(st) =>
      Returned(Report(st.steps, st.peaks, st.crossPos, st.crossNeg, st.crossPosPt, st.crossNegPt, []))
  }

  // ---------------------------------------------------------------------
  // Properties of the run
  // ---------------------------------------------------------------------

  /** Sample `i` records a new step: rules 4 to 9 all hold at a downward crossing. */
  predicate AcceptsAt(sig: Signals, st: State, i: nat)
    requires Aligned(sig) && i < |sig.data| && Wf(sig, st, i)
  {
    && Falling(sig, st, i)
    && st.numPeaks >= StMin
    && RulesHold(sig, st, i)
    && Crossing(sig, i).Some? && st.posCrossPt.Some?
    && Crossing(sig, i).value.x - st.posCrossPt.value.x > TDwell
  }

  /** Sample `i` withdraws the last step (rule 3). */
  predicate RevokesAt(sig: Signals, st: State, i: nat)
    requires Aligned(sig) && i < |sig.data| && Wf(sig, st, i)
  {
    !st.armed && !Rising(sig, st, i) && Revokes(sig, AfterStaleReset(sig, st, i), i)
  }

  /**
   * The effect of one iteration on the step count and the peak list: an
   * accepted step appends the interval's peak and adds one, a revocation
   * subtracts one and keeps the peaks, anything else changes neither.
   */
  lemma StepEffect(sig: Signals, st: State, i: nat)
    requires Aligned(sig) && i < |sig.data| && Wf(sig, st, i) && Step(sig, st, i).Scanning?
    ensures var r := Step(sig, st, i).st;
      AcceptsAt(sig, st, i) ==>
        && r.peaks == st.peaks + [Peak(sig, st, i)]
        && r.steps == st.steps + 1
        && r.lastValidStepIndex == Some(IndexOf(sig.data, Peak(sig, st, i)))
    ensures var r := Step(sig, st, i).st;
      RevokesAt(sig, st, i) ==> r.peaks == st.peaks && r.steps == st.steps - 1
    ensures var r := Step(sig, st, i).st;
      !AcceptsAt(sig, st, i) && !RevokesAt(sig, st, i) ==> r.peaks == st.peaks && r.steps == st.steps
  {
  }

  /** `StepEffect` in numbers: the change to the peak count and the step count. */
  lemma StepCounts(sig: Signals, st: State, i: nat)
    requires Aligned(sig) && i < |sig.data| && Wf(sig, st, i) && Step(sig, st, i).Scanning?
    ensures |Step(sig, st, i).st.peaks| == |st.peaks| + (if AcceptsAt(sig, st, i) then 1 else 0)
    ensures Step(sig, st, i).st.steps ==
      st.steps + (if AcceptsAt(sig, st, i) then 1 else 0) - (if RevokesAt(sig, st, i) then 1 else 0)
  {
    StepEffect(sig, st, i);
  }

  /**
   * An iteration raises exactly when rules 4 to 7+8 pass at a downward
   * crossing and one of the two crossings rule 9 reads is undefined.
   */
  lemma StepCrashes(sig: Signals, st: State, i: nat)
    requires Aligned(sig) && i < |sig.data| && Wf(sig, st, i)
    ensures Step(sig, st, i).Crashed? <==>
      && Falling(sig, st, i) && st.numPeaks >= StMin && RulesHold(sig, st, i)
      && (Crossing(sig, i).None? || st.posCrossPt.None?)
  {
  }

  /** The number of steps accepted among the first `k` samples. */
  function AcceptCount(sig: Signals, k: nat): nat
    requires Aligned(sig) && k <= |sig.data|
  {
    if k == 0 then 0
    else
      AcceptCount(sig, k - 1) +
      match Run(sig, k - 1)
      case Crashed(_) => 0
      case Scanning(st) => if AcceptsAt(sig, st, k - 1) then 1 else 0
  }

  /** The number of steps withdrawn among the first `k` samples. */
  function RevokeCount(sig: Signals, k: nat): nat
    requires Aligned(sig) && k <= |sig.data|
  {
    if k == 0 then 0
    else
      RevokeCount(sig, k - 1) +
      match Run(sig, k - 1)
      case Crashed(_) => 0
      case Scanning(st) => if RevokesAt(sig, st, k - 1) then 1 else 0
  }

  /**
   * Every accepted step contributes one peak, and the step count is the
   * number of accepted steps less the number withdrawn.
   */
  lemma {:induction false} StepsAccountedFor(sig: Signals, k: nat)
    requires Aligned(sig) && k <= |sig.data| && Run(sig, k).Scanning?
    ensures |Run(sig, k).st.peaks| == AcceptCount(sig, k)
    ensures Run(sig, k).st.steps == AcceptCount(sig, k) - RevokeCount(sig, k)
  {
    if k > 0 {
      var i := k - 1;
      assert Run(sig, i).Scanning?;
      StepsAccountedFor(sig, i);
      RunStepCounts(sig, i, Run(sig, i).st);
    }
  }

  /** `StepCounts` for the iteration of the run at sample `i`. */
  lemma RunStepCounts(sig: Signals, i: nat, st: State)
    requires Aligned(sig) && i < |sig.data| && Run(sig, i) == Scanning(st) && Run(sig, i + 1).Scanning?
    ensures |Run(sig, i + 1).st.peaks| == |st.peaks| + (if AcceptsAt(sig, st, i) then 1 else 0)
    ensures Run(sig, i + 1).st.steps ==
      st.steps + (if AcceptsAt(sig, st, i) then 1 else 0) - (if RevokesAt(sig, st, i) then 1 else 0)
  {
    RunStep(sig, i);
    StepCounts(sig, st, i);
  }

  /** An iteration that does not raise keeps `Inv`. */
  lemma StepKeepsInv(sig: Signals, st: State, i: nat)
    requires Aligned(sig) && i < |sig.data| && Inv(sig, st, i) && Step(sig, st, i).Scanning?
    ensures Inv(sig, Step(sig, st, i).st, i + 1)
  {
    if Rising(sig, st, i) {
      ArmKeepsInv(sig, st, i);
    } else if Falling(sig, st, i) {
      EvaluateKeepsInv(sig, st, i);
    } else if !st.armed {
      IdleKeepsInv(sig, st, i);
    }
  }

  lemma ArmKeepsInv(sig: Signals, st: State, i: nat)
    requires Aligned(sig) && i < |sig.data| && Inv(sig, st, i) && Rising(sig, st, i)
    ensures Inv(sig, Arm(sig, st, i), i + 1)
  {
  }

  lemma EvaluateKeepsInv(sig: Signals, st: State, i: nat)
    requires Aligned(sig) && i < |sig.data| && Inv(sig, st, i) && Falling(sig, st, i)
    requires Evaluate(sig, st, i).Scanning?
    ensures Inv(sig, Evaluate(sig, st, i).st, i + 1)
  {
    DisarmKeepsInv(sig, st, i);
    if st.numPeaks >= StMin && RulesHold(sig, st, i)
       && Crossing(sig, i).value.x - st.posCrossPt.value.x > TDwell
    {
      AcceptKeepsInv(sig, st, i);
    }
  }

  /** Disarming keeps `Inv`, with or without resetting the cycle count. */
  lemma DisarmKeepsInv(sig: Signals, st: State, i: nat)
    requires Aligned(sig) && i < |sig.data| && Inv(sig, st, i) && Falling(sig, st, i)
    ensures Inv(sig, Disarm(sig, st, i), i + 1)
    ensures Inv(sig, Disarm(sig, st, i).(numPeaks := 0), i + 1)
  {
  }

  /** Accepting a step keeps `Inv`: the new last peak is the sample at `lastValidStepIndex`. */
  lemma AcceptKeepsInv(sig: Signals, st: State, i: nat)
    requires Aligned(sig) && i < |sig.data| && Inv(sig, st, i) && Falling(sig, st, i)
    requires RulesHold(sig, st, i)
    ensures Inv(sig, Accept(sig, st, i), i + 1)
  {
    DisarmKeepsInv(sig, st, i);
    var p := Peak(sig, st, i);
    var a := Accept(sig, st, i);
    assert sig.data[a.lastValidStepIndex.value] == p;
    assert forall j :: 0 <= j < |st.peaks| ==> a.peaks[j] == st.peaks[j];
    assert a.peaks[|st.peaks|] == p;
  }

  lemma IdleKeepsInv(sig: Signals, st: State, i: nat)
    requires Aligned(sig) && i < |sig.data| && Inv(sig, st, i) && !st.armed
    ensures Inv(sig, Idle(sig, st, i), i + 1)
  {
  }

  /** Every state the loop reaches satisfies `Inv`. */
  lemma {:induction false} RunKeepsInv(sig: Signals, k: nat)
    requires Aligned(sig) && k <= |sig.data| && Run(sig, k).Scanning?
    ensures Inv(sig, Run(sig, k).st, k)
  {
    if k > 0 {
      var i := k - 1;
      assert Run(sig, i).Scanning?;
      RunKeepsInv(sig, i);
      RunStepKeepsInv(sig, i, Run(sig, i).st);
    }
  }

  /** `StepKeepsInv` for the iteration of the run at sample `i`. */
  lemma RunStepKeepsInv(sig: Signals, i: nat, st: State)
    requires Aligned(sig) && i < |sig.data| && Run(sig, i) == Scanning(st) && Run(sig, i + 1).Scanning?
    requires Inv(sig, st, i)
    ensures Inv(sig, Run(sig, i + 1).st, i + 1)
  {
    RunStep(sig, i);
    StepKeepsInv(sig, st, i);
  }

  /** Once raised, the exception ends the loop: the outcome stays the same. */
  lemma CrashPersists(sig: Signals, j: nat, k: nat)
    requires Aligned(sig) && j <= k <= |sig.data| && Run(sig, j).Crashed?
    ensures Run(sig, k) == Run(sig, j)
  {
    var m := j;
    while m < k
      invariant j <= m <= k && Run(sig, m) == Run(sig, j)
    {
      CrashStays(sig, m, Run(sig, j));
      m := m + 1;
    }
  }

  /** The iteration after a raise changes nothing. */
  lemma CrashStays(sig: Signals, i: nat, r: Scan)
    requires Aligned(sig) && i < |sig.data| && Run(sig, i) == r && r.Crashed?
    ensures Run(sig, i + 1) == r
  {
  }

  /**
   * Earlier states are prefixes of later ones: peaks and both crossing
   * lists are only ever appended to.
   */
  lemma {:induction false} RecordsOnlyGrow(sig: Signals, j: nat, k: nat)
    requires Aligned(sig) && j <= k <= |sig.data| && Run(sig, k).Scanning?
    ensures Run(sig, j).Scanning? && Extends(Run(sig, j).st, Run(sig, k).st)
    decreases k
  {
    if k > j {
      var i := k - 1;
      assert Run(sig, i).Scanning?;
      RecordsOnlyGrow(sig, j, i);
      RunStepExtends(sig, i, Run(sig, i).st);
      ExtendsTransitive(Run(sig, j).st, Run(sig, i).st, Run(sig, k).st);
    }
  }

  /** `StepExtends` for the iteration of the run at sample `i`. */
  lemma RunStepExtends(sig: Signals, i: nat, st: State)
    requires Aligned(sig) && i < |sig.data| && Run(sig, i) == Scanning(st) && Run(sig, i + 1).Scanning?
    ensures Extends(st, Run(sig, i + 1).st)
  {
    RunStep(sig, i);
    StepExtends(sig, st, i);
  }

  /** An iteration only appends to the records. */
  lemma StepExtends(sig: Signals, st: State, i: nat)
    requires Aligned(sig) && i < |sig.data| && Wf(sig, st, i) && Step(sig, st, i).Scanning?
    ensures Extends(st, Step(sig, st, i).st)
  {
  }

  /** When every crossing is defined the loop never raises. */
  lemma {:induction false} NoCrashWhenCrossingsDefined(sig: Signals, k: nat)
    requires Aligned(sig) && k <= |sig.data|
    requires forall i :: 0 <= i < |sig.data| ==> Crossing(sig, i).Some?
    ensures Run(sig, k).Scanning?
  {
    if k > 0 {
      var i := k - 1;
      NoCrashWhenCrossingsDefined(sig, i);
      RunKeepsInv(sig, i);
      RunStep(sig, i);
      StepCrashes(sig, Run(sig, i).st, i);
    }
  }

  /** The threshold is sampled at the signal's own times. */
  predicate ThresholdTimed(sig: Signals)
    requires Aligned(sig)
  {
    forall j :: 0 <= j < |sig.data| ==> sig.lambdaD[j].t == sig.data[j].t
  }

  /** Sample times strictly increase. */
  predicate TimesIncrease(data: seq<Sample>)
  {
    forall j, k :: 0 <= j < k < |data| ==> data[j].t < data[k].t
  }

  /**
   * With increasing times, an upward crossing after a sample at or below
   * the threshold has a defined crossing point between the two samples.
   */
  lemma UpCrossingBracketed(sig: Signals, i: nat)
    requires Aligned(sig) && 1 <= i < |sig.data|
    requires ThresholdTimed(sig) && TimesIncrease(sig.data)
    requires sig.data[i].v > sig.lambdaD[i].v && sig.data[i - 1].v <= sig.lambdaD[i - 1].v
    ensures Crossing(sig, i).Some?
    ensures sig.data[i - 1].t <= Crossing(sig, i).value.x < sig.data[i].t
  {
    CrossingBracketed(sig.data[i - 1].t, sig.data[i - 1].v, sig.lambdaD[i - 1].v,
                      sig.data[i].t, sig.data[i].v, sig.lambdaD[i].v);
  }

  /**
   * With increasing times, the downward crossing that disarms the
   * validator always has a defined crossing point between the two samples:
   * while armed the signal never dropped below the threshold.
   */
  lemma DownCrossingBracketed(sig: Signals, st: State, i: nat)
    requires Aligned(sig) && i < |sig.data| && Inv(sig, st, i) && Falling(sig, st, i)
    requires ThresholdTimed(sig) && TimesIncrease(sig.data)
    ensures i >= 1 && Crossing(sig, i).Some?
    ensures sig.data[i - 1].t <= Crossing(sig, i).value.x < sig.data[i].t
  {
    CrossingBracketed(sig.data[i - 1].t, sig.data[i - 1].v, sig.lambdaD[i - 1].v,
                      sig.data[i].t, sig.data[i].v, sig.lambdaD[i].v);
  }

  /**
   * An armed state whose upward crossing is undefined, which needs that
   * crossing to be at sample 0 or right after a sample already above the
   * threshold.
   */
  predicate UpCrossingMissing(sig: Signals, st: State)
    requires Aligned(sig) && st.posCrossIndex < |sig.data|
  {
    && st.armed
    && Crossing(sig, st.posCrossIndex).None?
    && (st.posCrossIndex == 0
        || sig.data[st.posCrossIndex - 1].v > sig.lambdaD[st.posCrossIndex - 1].v)
  }

  /** With increasing times, an iteration raises only when the interval's upward crossing is missing. */
  lemma StepCrashCause(sig: Signals, st: State, i: nat)
    requires Aligned(sig) && i < |sig.data| && Inv(sig, st, i) && Step(sig, st, i).Crashed?
    requires ThresholdTimed(sig) && TimesIncrease(sig.data)
    ensures st.posCrossIndex < |sig.data| && UpCrossingMissing(sig, st)
  {
    StepCrashes(sig, st, i);
    DownCrossingBracketed(sig, st, i);
    var p := st.posCrossIndex;
    if p > 0 && sig.data[p - 1].v <= sig.lambdaD[p - 1].v {
      UpCrossingBracketed(sig, p);
    }
  }

  /**
   * With the threshold `compute_threshold` builds, nothing happens at the
   * first three samples, so the wrapped-around `data[-1]` is never used.
   */
  lemma {:induction false} QuietStart(sig: Signals, k: nat)
    requires Aligned(sig) && k <= |sig.data| && k <= 3
    requires sig.lambdaD == Conditioning.ComputeThreshold(sig.data)
    ensures Run(sig, k) == Scanning(Start)
  {
    if k > 0 {
      QuietStart(sig, k - 1);
      Conditioning.ThresholdCoversStart(sig.data, k - 1);
    }
  }

  /**
   * What a returned report satisfies: every step was accepted and not
   * withdrawn, the peaks are samples of the signal in strictly increasing
   * time and paced by T_stmin and T_stmax, each upward crossing has at
   * most one downward crossing after it, and `cadences` stays empty.
   */
  ghost predicate ReportWellFormed(sig: Signals, r: Report)
    requires Aligned(sig)
  {
    && |r.peaks| == AcceptCount(sig, |sig.data|)
    && r.steps == AcceptCount(sig, |sig.data|) - RevokeCount(sig, |sig.data|)
    && 0 <= r.steps <= |r.peaks|
    && Paced(r.peaks)
    && (forall a, b :: 0 <= a < b < |r.peaks| ==> r.peaks[a].t < r.peaks[b].t)
    && (forall j :: 0 <= j < |r.peaks| ==> r.peaks[j] in sig.data)
    && |r.crossPos| == |r.crossPosPt| && |r.crossNeg| == |r.crossNegPt|
    && |r.crossNeg| <= |r.crossPos| <= |r.crossNeg| + 1
    && r.cadences == []
  }

  lemma DetectReport(sig: Signals)
    requires Aligned(sig) && Detect(sig).Returned?
    ensures ReportWellFormed(sig, Detect(sig).report)
  {
    StepsAccountedFor(sig, |sig.data|);
    RunKeepsInv(sig, |sig.data|);
    PacedIncreasing(Run(sig, |sig.data|).st.peaks);
  }
}
