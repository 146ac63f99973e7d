# Step counter: conditioning, crossing geometry and step validator

This project models the step-detection pipeline of `step_counter.py` over
exact real arithmetic. It then proves the properties that the pipeline's
outputs and its validator state machine keep.

Modules:

- `Config`: the tuning constants (lines 14-26).
- `Series`: samples `(t, v)` and the parts of Python indexing the code relies on:
  - `s[i - 1]` wrapping around at `i == 0`;
  - `s[a:]` with a negative start;
  - `max(..., key=...)` keeping the first maximum;
  - `list.index`.
- `Stats`: exact replacements for `sum`, `statistics.mean` and `statistics.median`.
  - The median sorts by insertion and averages the two middle values of an even count.
- `Geometry`: `perp` and `seg_intersect`, with a 2-D real vector in place of numpy arrays.
  - It proves that a defined intersection lies on both lines and is the only common point.
  - It proves that for a threshold crossing the intersection time lies between the two bracketing samples.
- `Conditioning`: time normalisation, the hysteretic three-point moving median, the trailing moving averages and the adaptive threshold.
  - The moving median is the imperative loop the source writes, proved to produce the hysteresis recurrence.
- `Noise`: the duration-windowed mean of squares (`root_mean_square`, `compute_root_mean_square`), which takes no square root.
  - `find_index_s_away` appears both as a function and as the backward loop with early return, proved equal.
- `Cadence`: `cadence`, shown by telescoping to equal `(n - 1) / (t_last - t_first)`, with bounds for paced steps.
- `Validator`: one iteration of the `count_steps` loop as a pure function `Step` on a `State` record of the loop's locals.
  - `Run` folds `Step` over a prefix of the samples.
  - `Detect` is what `count_steps` returns, or the index of the sample at which it raises.
  - The run-level lemmas are stated about this fold:
    - the step count accounts for accepted and revoked steps;
    - the invariant `Inv` holds at every reached state;
    - the records only grow;
    - when and why a raise happens;
    - what a returned report satisfies.
- `StepCounter`: `count_steps` as the imperative `for` loop over the samples.
  - Each branch is its own method, proved equal to the corresponding validator function.
  - `CountSteps` is proved to return `Validator.Detect`.

The model follows the code as written, including these behaviours:

- A missing crossing point does not skip acceptance.
  - Once rules 4 to 7+8 have passed, rule 9 reads `neg_cross_pt[0]` and `pos_cross_pt[0]`; on `None` this raises a `TypeError` (line 165).
  - The model returns `Raised(i)` for that sample.
- The revoke rule decrements `steps` but leaves `peaks` unchanged (lines 185-187).
- The amplitude rule takes the maximum over `data[pos_cross_index:neg_cross_index]`, which excludes sample `i` (line 164).
  - The recorded peak is taken over `data[pos_cross_index:i + 1]` (line 158).
- The cadence window `peaks[len(peaks) - St_min:]` uses Python's negative-start slicing (line 163).
  - With fewer than six peaks the window is not the last six peaks.
- The returned `cadences` list is never appended to, so it is always empty.

## Model

| member | source | states |
|---|---|---|
| Series.PyPrev | step_counter.py:141-142 | the index `data[i - 1]` reads is `(i - 1) mod len`, the element cyclically before `i`: the index after it, taken modulo `len`, is `i` again |
| Series.PySliceFrom | step_counter.py:163 | definition of Python's `s[start:]` for any integer start; what it keeps is stated by `Series.PySliceFromIsSuffix` |
| Series.PySliceFromIsSuffix | step_counter.py:163 | `s[start:]` is always a suffix of `s`; a non-negative start drops `min(start, len)` elements, a negative start keeps the last `min(-start, len)` |
| Series.FirstMaxIndex | step_counter.py:158 | the index of the first sample of largest value: no sample is larger, and every earlier one is strictly smaller |
| Series.FirstMax | step_counter.py:158 | `max(s, key=lambda pt: pt[1])` is an element of `s` at least as large as every element |
| Series.IndexOf | step_counter.py:169 | `data.index(x)` is the first position that holds `x` |
| Series.Values | step_counter.py:72 | definition of the value column `[pt[1] for pt in s]`; `Series.ValuesOfSlice` states that it commutes with slicing |
| Series.ValuesOfSlice | step_counter.py:80 | the value column of a slice is the slice of the value column |
| Stats.Abs | step_counter.py:65 | `abs` is non-negative and equals `x` or `-x` |
| Stats.Sum | step_counter.py:200 | definition of `sum`; `Stats.SumBetween` bounds it and `Cadence.GapsTelescope` evaluates it on gaps |
| Stats.MinOf | step_counter.py:72 | no element is below the minimum |
| Stats.MaxOf | step_counter.py:72 | no element is above the maximum |
| Stats.MinMaxAreElements | step_counter.py:72 | the minimum and the maximum are elements of the list |
| Stats.SumBetween | step_counter.py:76 | a sum of `n` terms in `[lo, hi]` lies in `[n * lo, n * hi]` |
| Stats.DivBetween | step_counter.py:76 | dividing by a positive count keeps the bounds |
| Stats.Mean | step_counter.py:76 | `statistics.mean` lies between the minimum and the maximum of its data |
| Stats.MeanOfOne | step_counter.py:76 | the mean of one value is that value |
| Stats.Insert | step_counter.py:72 | inserting into a sorted list gives a sorted list one longer, starting with the smaller of `x` and the old head |
| Stats.InsertPermutes | step_counter.py:72 | insertion adds exactly `x` to the multiset of elements |
| Stats.Sort | step_counter.py:72 | sorting gives a sorted list of the same length |
| Stats.SortPermutes | step_counter.py:72 | sorting is a permutation of its input |
| Stats.Median | step_counter.py:72 | `statistics.median` lies between the minimum and the maximum of its data |
| Stats.MedianOfOne | step_counter.py:80 | the median of one value is that value |
| Stats.SortOfTwo | step_counter.py:80 | sorting two values orders them |
| Stats.MedianOfTwo | step_counter.py:80 | the median of two values is their mean |
| Stats.InsertIntoTwo | step_counter.py:80 | inserting into a sorted pair places the value by comparison |
| Stats.MiddleOfInsert | step_counter.py:80 | inserting into a sorted pair puts the middle of the three in the middle |
| Stats.SortThreeStep | step_counter.py:80 | sorting three values inserts the first into the sorted other two |
| Stats.SortOfThree | step_counter.py:80 | the middle element of three sorted values is `Middle` |
| Stats.MedianOfThreeSorted | step_counter.py:80 | the median of three values is the second sorted one |
| Stats.MedianOfThree | step_counter.py:80 | the median of three values is the middle one |
| Geometry.PerpIsQuarterTurn | step_counter.py:32-36 | `perp(a)` is orthogonal to `a` and has the same length |
| Geometry.Perp | step_counter.py:32-36 | definition of `perp`, `(-a[1], a[0])`; `Geometry.PerpIsQuarterTurn` states that it is a quarter turn |
| Geometry.SegIntersect | step_counter.py:42-51 | the result is `None` exactly when `perp(da) . db == 0` |
| Geometry.SegIntersectOnBothLines | step_counter.py:42-51 | a defined result is `b1 + s * db` and lies on both infinite lines |
| Geometry.SegIntersectUnique | step_counter.py:42-51 | with a non-zero denominator every point on both lines is the returned one |
| Geometry.CrossingParameter | step_counter.py:42-51 | for the detector's segments, the line parameter is the excess over the threshold divided by the change in that excess |
| Geometry.FractionBounds | step_counter.py:42-51 | an excess that changes sign gives a parameter in `(0, 1]` |
| Geometry.ScaledSpan | step_counter.py:42-51 | a parameter in `(0, 1]` maps to a time in `[t0, t1)` |
| Geometry.CrossingBracketed | step_counter.py:141-150 | when time advances and the signal crosses the threshold, the crossing point exists, lies on the threshold line, and its time lies in `[t0, t1)` |
| Conditioning.NormalizeTimes | step_counter.py:54-55 | the values and time differences are kept, and the first time becomes 0 |
| Conditioning.NormalizeTimesIdempotent | step_counter.py:54-55 | normalising twice equals normalising once |
| Conditioning.LambdaMThreshold | step_counter.py:64-68 | the previous output is kept exactly when the new median is within `lambda_M` of it; otherwise the new median is taken; either way the result is within `lambda_M` of the new median |
| Conditioning.WindowValues | step_counter.py:80 | the window `[max(i - 2, 0), i]` holds one, two or three raw values |
| Conditioning.CurrentMedian | step_counter.py:79-80 | definition of the window median, written out for windows of one, two and three values; `Conditioning.CurrentMedianIsMedian` states that it is `statistics.median` of the window |
| Conditioning.CurrentMedianIsMedian | step_counter.py:79-80 | `CurrentMedian` is `statistics.median` of the window's values |
| Conditioning.CurrentMedianInPrefixRange | step_counter.py:79-80 | the window median lies in the range of the raw values up to `i` |
| Conditioning.GetPreviousMedian | step_counter.py:83-84 | definition: the value at `i - 1` when that index exists; `Conditioning.PreviousMedianIsLastOutput` states what the filter gets from it |
| Conditioning.PreviousMedianIsLastOutput | step_counter.py:83-91 | called with the number of outputs so far, it gives the last output appended, and nothing at the first sample, so `medians[-1]` is never wrapped around to the end |
| Conditioning.RangeOfPart | step_counter.py:87-92 | a slice's range lies within the whole list's range |
| Conditioning.PrefixRangeGrows | step_counter.py:87-92 | extending a prefix only widens its range |
| Conditioning.NextFiltered | step_counter.py:90-91 | definition of the sample the median filter appends at `i`; `Conditioning.MedianFilterStep` and `Conditioning.FilterStep` state what appending it keeps |
| Conditioning.MedianFilterStep | step_counter.py:89-91 | one append keeps "times aligned, first value carried over, each value the hysteresis of its window median" |
| Conditioning.SeenRangeStep | step_counter.py:89-91 | one append keeps every output within the range of the raw values seen so far |
| Conditioning.FilterStep | step_counter.py:89-91 | one append keeps the loop invariant of the median filter |
| Conditioning.MedianFilterFacts | step_counter.py:87-92 | the finished invariant gives aligned times, the first value carried over, the recurrence, and closeness to the window median |
| Conditioning.MedianOrHeld | step_counter.py:64-68 | every later output is either its window median or the previous output |
| Conditioning.MedianFilterComplete | step_counter.py:87-92 | the finished invariant gives all the postconditions of the filter |
| Conditioning.ComputeMovingMedianFilter | step_counter.py:87-92 | the output has the input's length and times; output 0 is input 0's value; each later value is the window median or the previous output and satisfies the hysteresis recurrence; each value is within `lambda_M` of its window median and within the range of the raw values seen so far |
| Conditioning.AverageWindowStart | step_counter.py:96 | the window `[max(0, i - (w - 1)), i]` starts at or before `i` |
| Conditioning.AverageWindowShape | step_counter.py:96 | the window holds `min(i + 1, w)` samples |
| Conditioning.TrailingMean | step_counter.py:96 | the trailing mean lies within its window's range |
| Conditioning.TrailingMeanOfOne | step_counter.py:96 | with `w == 1` the trailing mean is the sample itself |
| Conditioning.ComputeMovingAverageFilter | step_counter.py:95-97 | the output keeps the input's length and times; each value is the mean of its window and lies within the window's range; with `w == 1` the values are unchanged |
| Conditioning.TrailingMeans | step_counter.py:101-103 | one trailing mean per element; the identity when `w == 1` |
| Conditioning.ComputeMovingAverageFilterAL | step_counter.py:100-103 | three lists of the axes' lengths, each value within its window's range, and the identity when `w == 1` |
| Conditioning.ThresholdSource | step_counter.py:107 | the threshold is causal: at `i` it reads an index no later than `i` and at most two samples back |
| Conditioning.ComputeThreshold | step_counter.py:106-107 | the output keeps the input's length and times; every value is at least 1.033, at least the lagged source value, and equals one of the two |
| Conditioning.ThresholdCoversStart | step_counter.py:107 | at the first three samples the signal never exceeds its own threshold |
| Noise.Squares | step_counter.py:200 | one squared value per sample, none of them negative |
| Noise.RootMeanSquare | step_counter.py:198-201 | 0 for the empty list; otherwise the mean of the squares, which is non-negative and lies within the squares' range |
| Noise.RootMeanSquareOfConstant | step_counter.py:198-201 | on a constant series `c` the result is `c * c`, so no root is taken |
| Noise.SearchBack | step_counter.py:213-215 | the backward scan stops at the first index from the end that is at least `s` older, or gives 0 when there is none |
| Noise.IndexSAway | step_counter.py:210-216 | 0 for empty data; otherwise an index of the data that is the largest one at least `s` older than the last sample, or 0 when no index is |
| Noise.FindIndexSAway | step_counter.py:210-216 | the backward loop with early return computes `IndexSAway`; with `s <= 0` it returns the last index |
| Noise.RmsWindowStart | step_counter.py:206 | the window starts at or before `i` |
| Noise.RmsWindowStartIsLatest | step_counter.py:206 | the window starts at the latest sample at least `time_window` older than sample `i`, or at 0 when none is |
| Noise.RmsAt | step_counter.py:206 | the value at `i` is non-negative and lies within the range of the squares of its non-empty window |
| Noise.ComputeRootMeanSquare | step_counter.py:204-207 | the output keeps the input's length and times; each value is the windowed mean of squares and is non-negative |
| Cadence.Gaps | step_counter.py:195 | definition of the consecutive differences `current - previous` of `zip(steps[1:], steps)` (its contract spells out that comprehension); `Cadence.GapsTelescope` states what they add up to and `Cadence.PositiveGapsIncrease` what their signs mean |
| Cadence.GapsTelescope | step_counter.py:195 | the gaps sum to `t_last - t_first` |
| Cadence.ReciprocalOfQuotient | step_counter.py:195 | `1 / (span / n) == n / span` |
| Cadence.MeanGap | step_counter.py:195 | the mean gap is the span over `n - 1` |
| Cadence.Cadence | step_counter.py:192-195 | 0 below two items; otherwise `(n - 1) / (t_last - t_first)` |
| Cadence.PositiveGapsIncrease | step_counter.py:195 | positive gaps mean the times strictly increase |
| Cadence.CadencePositive | step_counter.py:192-195 | with strictly increasing times and two or more items the cadence is positive |
| Cadence.SpanBetween | step_counter.py:195 | gaps in `[lo, hi]` put the span in `[(n - 1) lo, (n - 1) hi]` |
| Cadence.InverseBounds | step_counter.py:195 | bounds on a span give inverse bounds on `n / span` |
| Cadence.CadenceBetween | step_counter.py:192-195 | gaps in `[lo, hi]` with `lo > 0` give a cadence in `[1 / hi, 1 / lo]` |
| Validator.AxisGate | step_counter.py:135 | the arm gate is closed exactly when `axL >= A_xmin`, `ayL <= A_ymin` and `azL == A_zmin` |
| Validator.Crossing | step_counter.py:141-150 | definition: `seg_intersect` of the signal and threshold segments ending at sample `i`, with index `i - 1` wrapping at 0; `Validator.UpCrossingBracketed` and `Validator.DownCrossingBracketed` state where it lies |
| Validator.Rising | step_counter.py:133-135 | definition of the guard of the arm branch; `Validator.BranchesExclusive` relates it to the other guards |
| Validator.Falling | step_counter.py:147 | definition of the guard of the downward-crossing branch; `Validator.BranchesExclusive` relates it to the other guards |
| Validator.BranchesExclusive | step_counter.py:133-178 | the arm and downward-crossing guards never hold together, an armed state never arms again, and the idle branch is reached exactly when neither holds while disarmed |
| Validator.IntervalOk | step_counter.py:162 | definition of rule 5; `Validator.PacedAppend` states that a peak passing it keeps the peaks paced |
| Validator.CadenceOk | step_counter.py:163 | definition of rule 6; `Validator.CadenceOfPacedPeaks` states that its cadence call is defined and bounded |
| Validator.AmplitudeOk | step_counter.py:164 | definition of rules 7 and 8 over `data[pos_cross_index:neg_cross_index]`, which leaves out sample `i` |
| Validator.RulesHold | step_counter.py:162-164 | definition of rules 5, 6 and 7+8 together; `StepCounter.CheckRules` computes it and `Validator.StepEffect` states its effect |
| Validator.ExtendsTransitive | step_counter.py:140-153 | "only appends to the records" is transitive |
| Validator.PacedAppend | step_counter.py:162-167 | appending a peak that passes rule 5 keeps every gap within `(T_stmin, T_stmax)` |
| Validator.CadenceWindow | step_counter.py:163 | `peaks[len(peaks) - St_min:]`: the last six of six or more, `peaks[2n - 6:]` for three to five, all of two or fewer |
| Validator.CadenceWindowIsSuffix | step_counter.py:163 | the cadence window is a suffix of the peaks |
| Validator.PacedSuffix | step_counter.py:163 | a suffix of paced peaks is paced |
| Validator.PacedIncreasing | step_counter.py:162 | paced peaks strictly increase in time |
| Validator.CadenceOfPacedPeaks | step_counter.py:163 | the cadence call on paced peaks never divides by zero and lies in `[1 / T_stmax, 1 / T_stmin]` |
| Validator.Peak | step_counter.py:156-158 | the peak of the step interval is a sample of the signal |
| Validator.PeakIsIntervalMax | step_counter.py:156-158 | the peak is a sample of `[pos_cross_index, i]` and no sample there is larger |
| Validator.Arm | step_counter.py:137-145 | arming keeps the facts later reads need, with the crossing index before the next sample |
| Validator.Disarm | step_counter.py:149-153 | recording the downward crossing and disarming keeps those facts |
| Validator.Accept | step_counter.py:167-171 | an accepted peak keeps the peaks paced and sets `lastValidStepIndex` to a valid index |
| Validator.Evaluate | step_counter.py:147-176 | the downward-crossing branch keeps the facts later reads need whenever it does not raise |
| Validator.AfterStaleReset | step_counter.py:180-183 | rule 2 keeps those facts |
| Validator.StaleReset | step_counter.py:180-182 | definition of the rule 2 guard; `Validator.Idle` and `Validator.IdleKeepsInv` state its effect |
| Validator.Revokes | step_counter.py:185 | definition of the rule 3 guard; `Validator.StepEffect` states that it lowers `steps` by one and leaves `peaks` alone |
| Validator.Idle | step_counter.py:178-187 | rules 2 and 3 keep those facts |
| Validator.Step | step_counter.py:132-187 | one iteration either keeps those facts or raises at the current sample |
| Validator.Run | step_counter.py:132-187 | after `k` iterations the state keeps those facts, or the raise happened at a sample before `k` |
| Validator.Iterate | step_counter.py:132-187 | iteration `i` of the run either keeps those facts or raised at or before `i` |
| Validator.RunStep | step_counter.py:132-187 | a run that has not raised advances by exactly one `Step` |
| Validator.Detect | step_counter.py:110-189 | what `count_steps` returns, or the index of the sample at which it raises, which is always a sample index |
| Validator.Finish | step_counter.py:189 | definition of the returned tuple, with an empty `cadences`, or the raise; `Validator.DetectReport` states what a returned report satisfies |
| Validator.StepEffect | step_counter.py:160-187 | an accepted step appends the interval's peak, adds one and points `lastValidStepIndex` at it; a revoke subtracts one and leaves the peaks alone; any other iteration changes neither |
| Validator.StepCounts | step_counter.py:160-187 | the change in peak count and step count in one iteration is `+1` exactly on acceptance and `-1` exactly on revoke |
| Validator.StepCrashes | step_counter.py:165 | an iteration raises exactly when, at a downward crossing with `num_peaks >= St_min` and rules 5 to 7+8 passed, one of the two crossings rule 9 reads is undefined |
| Validator.StepsAccountedFor | step_counter.py:110-189 | the number of peaks is the number of accepted steps, and `steps` is accepted minus revoked |
| Validator.RunStepCounts | step_counter.py:132-187 | the counting effect of the run's iteration at sample `i` |
| Validator.StepKeepsInv | step_counter.py:132-187 | an iteration that does not raise keeps `Inv`: `0 <= steps <= len(peaks)`; `steps > 0` implies `lastValidStepIndex` is set and points at the last peak; peaks are signal samples; crossing lists pair up; `len(crossPos) - len(crossNeg)` is 1 exactly when armed |
| Validator.ArmKeepsInv | step_counter.py:137-145 | arming keeps `Inv` |
| Validator.EvaluateKeepsInv | step_counter.py:147-176 | the downward-crossing branch keeps `Inv` when it does not raise |
| Validator.DisarmKeepsInv | step_counter.py:149-176 | recording the downward crossing and disarming keeps `Inv`, with or without resetting `num_peaks` |
| Validator.AcceptKeepsInv | step_counter.py:167-171 | accepting a step keeps `Inv`: the new last peak is the sample at `lastValidStepIndex` |
| Validator.IdleKeepsInv | step_counter.py:178-187 | the idle branch keeps `Inv` |
| Validator.RunKeepsInv | step_counter.py:110-189 | every state the loop reaches satisfies `Inv` |
| Validator.RunStepKeepsInv | step_counter.py:132-187 | `Inv` is kept by the run's iteration at sample `i` |
| Validator.CrashPersists | step_counter.py:165 | once raised, the outcome of the run no longer changes |
| Validator.CrashStays | step_counter.py:165 | the iteration after a raise changes nothing |
| Validator.RecordsOnlyGrow | step_counter.py:140-153 | the peak list and the crossing lists of an earlier state are prefixes of a later state's |
| Validator.RunStepExtends | step_counter.py:132-187 | the run's iteration at `i` only appends to the records |
| Validator.StepExtends | step_counter.py:132-187 | an iteration only appends to the records |
| Validator.NoCrashWhenCrossingsDefined | step_counter.py:141-165 | when every crossing point is defined the loop never raises |
| Validator.UpCrossingBracketed | step_counter.py:141-142 | with increasing, shared times an upward crossing from at or below has a crossing point between the two samples |
| Validator.DownCrossingBracketed | step_counter.py:149-150 | with increasing, shared times the disarming crossing always has a crossing point between the two samples |
| Validator.StepCrashCause | step_counter.py:165 | with increasing, shared times a raise happens only when the interval's upward crossing is undefined, which needs that crossing to be at sample 0 or after a sample already above the threshold |
| Validator.QuietStart | step_counter.py:106-135 | with the threshold `compute_threshold` builds, the first three iterations leave the initial state unchanged |
| Validator.DetectReport | step_counter.py:110-189 | a returned report's step count is accepted minus revoked and lies in `[0, len(peaks)]`; the peaks are samples in strictly increasing time with gaps in `(T_stmin, T_stmax)`; the crossing lists pair up and differ by at most one; `cadences` is empty |
| StepCounter.CheckRules | step_counter.py:162-164 | the test of rules 5, 6 and 7+8 computes `RulesHold` |
| StepCounter.AcceptPeak | step_counter.py:167-171 | the accepting update is `Validator.Accept` |
| StepCounter.EvaluateCrossing | step_counter.py:147-176 | the downward-crossing branch is `Validator.Evaluate`, including the raise |
| StepCounter.ApplyIdleRules | step_counter.py:178-187 | the idle branch is `Validator.Idle` |
| StepCounter.ArmAtCrossing | step_counter.py:137-145 | the arming branch is `Validator.Arm` |
| StepCounter.Iteration | step_counter.py:133-187 | the loop body is `Validator.Step` |
| StepCounter.Advance | step_counter.py:132-187 | the loop body at sample `i` of a live run gives the run after `i + 1` samples, and any raise is at `i` |
| StepCounter.RunEnds | step_counter.py:132-189 | a loop that ends at the last sample or at a raise returns what `Detect` describes |
| StepCounter.CountSteps | step_counter.py:110-189 | `count_steps` returns `Detect` of its inputs, a report with the properties of `DetectReport`, or the index of a sample at which it raises |

## Left out

- `compute_acceleration_magnitude` (lines 58-61) is not modelled.
  - It depends on numpy's `norm` (a square root over floats), integer timestamp parsing and dict iteration order.
  - The magnitude series is an input of the model; `normalize_times` itself is modelled.
- The `__main__` block is not modelled. It covers file discovery, CSV reading, sorting, plotting and printing.
  - It passes `RMS` to `count_steps` as a list of `(t, value)` tuples, which Python 3 cannot compare with `St_RMS`.
  - The model takes the noise level as a list of reals.
- IEEE floating point is not modelled. All arithmetic is exact real arithmetic.
  - Rounding is not modelled.
  - The zero test of `seg_intersect` and the z-gate equality hole are decided exactly.
- numpy arrays in `perp` and `seg_intersect` are two-component real vectors.
- `object_median` and `object_mean` are not separate members.
  - They appear as `Stats.Median` and `Stats.Mean` of `Series.Values`.
- `statistics` is replaced by `Stats`.
- The locals `lastValidStepTime`, `checked` and `neg_cross_index` are not kept in the model's state.
  - The first two are never read.
  - The last is always `i` where it is read.
  - The other locals that survive an iteration are grouped into one `State` record.
- `posCrossIndex` starts at 0 instead of `None`. It is read only while armed, and arming always sets it.
- StepCounter.CheckRules evaluates the three conditions of the rule test eagerly instead of with short-circuit `and`. None of them can raise, so the result is the same.
- StepCounter.CountSteps requires every other series to be at least as long as `data`, which is more than Python needs.
  - Python reads `lambdaD[i]` at every sample (line 133).
  - It reads `axL[i]`, `ayL[i]` and `azL[i]` only when the signal is above the threshold while disarmed, left to right under short-circuit `or` (lines 133-135).
  - It reads `RMS[i]` only after the first three conditions of rule 2 hold (lines 180-182).
  - So with an axis or noise series shorter than `data`, Python can still run to completion when the missing tail is never read. The model excludes those inputs.
  - With a series too short for a read that does happen, Python raises an `IndexError`; the model does not produce that outcome.
- Cadence.Cadence requires the first and last times to differ when there are two or more items.
  - The `ZeroDivisionError` is not modelled.
  - Validator.CadenceOfPacedPeaks shows that `count_steps` always meets this requirement.
- Conditioning.ComputeMovingAverageFilter requires a window length of at least 1 unless the series is empty. The same holds for Conditioning.TrailingMeans and Conditioning.ComputeMovingAverageFilterAL.
  - A shorter window makes `statistics.mean` fail on an empty window, and that error path is not modelled.
- Validator.StepCrashCause describes the cause of a raise for one iteration. It is not restated for the whole run.
- Validator.DetectReport has no conclusion about `armed` at the end, because the returned tuple does not contain `armed`.
  - The correspondence between `len(crossPos) - len(crossNeg)` and `armed` is stated on the loop state by Validator.RunKeepsInv.
