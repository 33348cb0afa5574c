# ftalat: a Dafny model of the measurement and validation engine

ftalat estimates how long a CPU core takes to reach a frequency after it is requested. It uses a calibrated workload, `loop()`, as an indirect frequency sensor. This project models and proves three parts of the C program:

- **ConfInterval.c**, the sample summary:
  - the mean, the sample standard deviation and the 95% confidence interval of the mean;
  - the inter-quartile band, which sorts the sample buffer in place with `qsort`;
  - the two interval comparisons `overlap` and `overlapSignificantly`;
  - `buildFromMeasurement`, which fills the summary record.
- **main.c**, `measureLoop` and `runTest`:
  - the characterization of the workload at the target and start frequencies;
  - the distinguishability gate;
  - for each trial, the timed switch and the capped detection loop;
  - the two post-hoc validations and the uncapped revert loop between them;
  - the per-trial records in the global arrays `measurements`, `measurements_late` and `measurements_timestamps`, including the zeroing and the timestamp carry-forward of invalid trials.
- **utils.c**, the `xorshf96` generator and its static state.

Files:

- `words.dfy`: the LP64 integer types and 64-bit wrap-around subtraction.
- `qsort.dfy`: the library sort as an in-place sort by a key.
- `confinterval.dfy`: ConfInterval.c.
- `hardware.dfy`: the machine the program observes, as an oracle value:
  - the duration of the k-th `loop()` call;
  - the k-th timestamp-counter reading;
  - the log of `setFreq` requests.
- `ftalat.dfy`: main.c.
- `utils.dfy`: `xorshf96`.

Arithmetic that C does in `double` is done here over exact reals. `sqrt` is a parameter constrained only to be a square root (`IsSquareRoot`). Conversions from `double` to `unsigned long` are taken modulo 2^64 (`ToULong`). The global buffers are a class `Globals` with one array field per buffer. Its methods follow `runTest` block by block, and each is proved against functions of the oracle. `xorshf96`'s static words are the fields of a class `Xorshf96` over `bv64`.

Points where the code does something other than its comments or names suggest, and what the model does:

- Q1 is computed as `ceil(n / 4)` on an integer quotient, so the rounding is already done: Q1 is at index n/4 rounded down (`Q1Index`).
- Q3 is computed as `floor(3 * n / 4)` with `n` an `unsigned int`, so `3 * n` wraps modulo 2^32 (`Q3Index`, `Q3IndexWraps`).
- A trial is validated by comparing confidence intervals. The validation sample's interval must not lie entirely on one side of the reference interval (main.c:198, 219; `Disjoint`, `ValidationCheck`). The quartiles serve only the detection loop.
- Nothing checks the sample size. The model requires two values where the arithmetic needs them (see Left out).
- An invalid trial copies the previous timestamp only when `it > 0`. Trial 0 keeps its own end reading (main.c:225-230, `RecordedTimestamps`).
- `comparer` orders by the low 32 bits of each sample. The model of `runTest` uses a comparer on the full values (see Findings and Left out).

## Model

| member | source | states |
|---|---|---|
| Words.Sub64 | main.c:182-183 | Unsigned subtraction of counter readings is the exact difference when no wrap occurs, and the difference plus 2^64 when the end reading is smaller. |
| Words.ToULong | ConfInterval.c:107-108 | Casting an integral double that is in range to `unsigned long` keeps its value. |
| Qsort.SortByKey | ConfInterval.c:128 | The first n entries end up ordered by the comparison key and are a permutation of the old ones; entries from n on are unchanged. |
| ConfInterval.Average | ConfInterval.c:53-64 | The accumulation loop returns the mean of `times[0..n)`. |
| ConfInterval.Sd | ConfInterval.c:67-80 | The loop returns the square root of the sum of squared deviations from `average`, divided by n - 1. |
| ConfInterval.StandardError | ConfInterval.c:103 | `z * sd / sqrt(n)` is not negative when sd is not, and is 0 when sd is 0. |
| ConfInterval.ConfidenceBounds | ConfInterval.c:82-109 | With a non-negative standard error and bounds that fit an `unsigned long`, the floored lower bound and the ceiled upper bound bracket the average. |
| ConfInterval.StandardErrorNonNegative | ConfInterval.c:103 | The standard error of any sample of at least two values is never negative, because its variance is a sum of squares. |
| ConfInterval.Q1Index | ConfInterval.c:130 | The Q1 index is the integer quotient n/4, so it is in bounds for every n >= 1. |
| ConfInterval.Q3Index | ConfInterval.c:131 | For every `unsigned int` n >= 1 the Q3 index is in bounds. When `3 * n` does not wrap modulo 2^32, it is the integer quotient 3n/4 and is not below the Q1 index. |
| ConfInterval.Q3IndexWraps | ConfInterval.c:131 | For n = 1431655766, `3 * n` wraps to 2 and the Q3 index is 0, below the Q1 index. |
| ConfInterval.InterQuartileRangeAsWritten | ConfInterval.c:111-137 | With the comparer as written, the buffer ends up ordered by the low 32 bits only and permuted. Q1 and Q3 are read at the quartile indices, and Q1 <= Q3 is guaranteed only when every sample is below 2^32. |
| ConfInterval.ComparerKeyBreaksQuartileOrder | ConfInterval.c:111-136 | For the sample [2^32, 2^32, 1, 1], every permutation the as-written comparer accepts as sorted has Q1 = 2^32 > Q3 = 1, so the assertion fails. |
| ConfInterval.ComparerKeyAgreesBelow2To32 | ConfInterval.c:111-128 | When every sample is below 2^32, a buffer ordered by the low 32 bits is exactly a buffer ordered by value, so the corrected comparer and `comparer` accept the same sorted buffers. |
| ConfInterval.InterQuartileRange | ConfInterval.c:124-137 | With a comparer on the full values, the buffer ends up sorted and is a permutation of the old one. Q1 and Q3 are the entries at n/4 and 3n/4, and Q1 <= Q3 always holds. |
| ConfInterval.BuildFromMeasurement | ConfInterval.c:26-35 | All six record fields are filled: the mean, the standard deviation and the confidence bounds of the original sample, and the quartiles of the sorted buffer. The quartiles use the corrected comparer on full values. The caller's buffer is left sorted by value and permuted, with nothing past NbTimes touched. Q1 <= Q3. |
| ConfInterval.ConstantSampleSummary | ConfInterval.c:26-35 | A sample whose values are all k summarizes to average k, deviation 0, interval [k, k] and Q1 = Q3 = k, whatever permutation the sort leaves. |
| ConfInterval.Overlap | ConfInterval.c:43-45 | For intervals with lower <= upper, `overlap` is false exactly when all four bounds are equal. |
| ConfInterval.OverlapSignificantly | ConfInterval.c:47-50 | For intervals that contain their own averages, a significant overlap implies that the two intervals meet. |
| ConfInterval.OverlapSymmetric | ConfInterval.c:43-45 | `overlap(a, b) == overlap(b, a)`. |
| ConfInterval.OverlapSignificantlySymmetric | ConfInterval.c:47-50 | `overlapSignificantly(a, b) == overlapSignificantly(b, a)`. |
| ConfInterval.OverlapSignificantlyReflexive | ConfInterval.c:47-50 | An interval that contains its own average overlaps itself significantly. |
| ConfInterval.SummaryOverlapsItself | ConfInterval.c:47-50 | A summary built from any sample of at least two (and fewer than 2^32) values overlaps itself significantly when its bounds do not wrap. |
| Ftalat.InBand | main.c:175 | The detection loop accepts a duration exactly when it lies in [low, high]; a reversed band accepts nothing. |
| Ftalat.InRevertBand | main.c:204 | The revert loop accepts a duration exactly when it lies in [startLow*0.95, startHigh*1.05], which includes every duration of [startLow, startHigh]. |
| Ftalat.Disjoint | main.c:198-199 | The validation test (also main.c:219) fails, for well-formed intervals, exactly when the larger lower bound is above the smaller upper bound, that is, when the intervals share no point. |
| Ftalat.Detect | main.c:170-175 | The detection do-while returns with the duration in [Q1, Q3] exactly when `niters` is below the cap, and `niters` never exceeds the cap. `loop()` is called niters + 1 times on an in-band exit and cap times on a capped exit. The returned duration is the last call's, and every earlier call was out of band. |
| Ftalat.TimeSwitch | main.c:167-177 | The three timestamps are consecutive counter readings around `setFreq(targetFreq)` and the detection loop, and the detection facts above hold. One frequency request is logged and nothing else of the machine changes. |
| Ftalat.Revert | main.c:202-204 | The revert do-while ends only on a duration inside [startLow*0.95, startHigh*1.05], and every earlier call was outside it. |
| Ftalat.Gate | main.c:124-137 | The `else if` guard is true whenever it is reached, so the gate always takes one of its three printed branches. It reports separated exactly when one interval lies at or above the other. It returns early exactly when the intervals are not separated and one frequency's average lies inside the other's interval. |
| Ftalat.GateIsOverlapSignificantly | main.c:124-132 | The gate's inline test is `overlapSignificantly` of the two reference intervals, guarded by their not being disjoint. |
| Ftalat.FullTimes | main.c:182 | `measurements[j]` after the trials is trial j's end minus start reading if it was validated, and 0 if not. |
| Ftalat.LateTimes | main.c:183 | `measurements_late[j]` is trial j's end minus late-start reading if it was validated, and 0 if not. |
| Ftalat.LateNotLongerThanFull | main.c:182-183 | When start <= lateStart <= end, the late time of a trial never exceeds its full time. |
| Ftalat.RecordedTimestampsNondecreasing | main.c:184 | If trials' end readings never decrease, neither do the recorded timestamps, including the carried-forward ones. Each recorded timestamp is at most its trial's end reading. |
| Ftalat.TimedTrialsInOrder | main.c:167-177 | Under a counter that never goes backwards, each trial reads start <= lateStart <= end, and later trials end no earlier. |
| Ftalat.RecordsOrdered | main.c:182-184 | Under a monotone counter, the recorded timestamps never decrease and every late time is at most its full time. |
| Ftalat.RecordsExtend | main.c:225-230 | One more trial appends one entry to each record: zeroed times and the previous timestamp when it is invalid, except that trial 0 keeps its own end reading. |
| Ftalat.Globals.constructor | main.c:49-53 | The four global buffers are distinct arrays of the declared sizes, and every entry starts at 0, as for static storage. |
| Ftalat.Globals.MeasureLoop | main.c:71-77 | `times[i]` is written for exactly i < n, in call order, with successive `loop()` results. The return value is their mean. |
| Ftalat.Globals.SampleConfidenceBounds | main.c:193-196 | `average`, `sd` and `confidenceInterval` in turn give the confidence bounds of `times[0..n)`. |
| Ftalat.Globals.CollectValidationSample | main.c:186-191 | `times[1..100)` receive the next 99 `loop()` results; `times[0]` and the entries from 100 on are unchanged. |
| Ftalat.Globals.ValidationCheck | main.c:186-200 | The validation sample is the kept `times[0]` followed by 99 fresh durations. The check passes exactly when the sample's confidence interval is not disjoint from the reference interval. |
| Ftalat.Globals.RecordTrial | main.c:180-184 | Entry `it` of each record gets end - start, end - lateStart and end, and no other entry changes. |
| Ftalat.Globals.DiscardTrial | main.c:225-230 | An invalid trial's two times become 0 and its timestamp becomes entry it - 1's when it > 0. Trial 0 keeps its own, and no other entry changes. |
| Ftalat.Globals.RevertAndCheck | main.c:201-221 | After `setFreq(startFreq)` the revert loop stops on the first duration in the widened start band. The start-validation sample reuses `times[0]` and adds 99 fresh durations after the revert, and it passes exactly when its interval meets the start interval. |
| Ftalat.Globals.ValidateTrial | main.c:180-221 | `validated` ends true exactly when neither validation interval is disjoint from its reference interval, checked against target then start. Both samples start with the same `times[0]`, and the calls of `loop()` are consumed in order. |
| Ftalat.Globals.TimeAndValidate | main.c:167-221 | `times[0]` is the last detection duration. The writes at index `it` are made as described, and the trial satisfies `TrialConsistent` and read three consecutive timestamps. |
| Ftalat.Globals.RunTrial | main.c:158-230 | One loop iteration writes only entry `it` of each record. The entries are `FullTime`, `LateTime` and the end reading, or the previous timestamp for an invalid trial with it > 0. |
| Ftalat.Globals.CharacterizeTarget | main.c:100-108 | The target sample's mean and confidence bounds are computed. Q1 and Q3 are read from a permutation of it sorted by value with the corrected comparer. |
| Ftalat.Globals.CharacterizeStart | main.c:110-115 | A fresh start sample's mean and confidence bounds are computed. |
| Ftalat.Globals.Characterize | main.c:100-115 | The reference statistics are those of the first 10000 durations at the target frequency and the next 10000 at the start frequency. Q1 and Q3 come from the sort by value with the corrected comparer, so Q1 <= Q3. |
| Ftalat.Globals.NextTrial | main.c:157-230 | Trial `|trials|` is run and appended, and the records for all trials so far match `FullTimes`, `LateTimes` and `RecordedTimestamps`. |
| Ftalat.Globals.RunTrials | main.c:157-241 | After the loop, each record equals its function of the trial list. Every trial is consistent, and trial j read counter entries 3j to 3j+2. |
| Ftalat.Globals.WarmUpAndRunTrials | main.c:143-241 | After the warm-up call of `loop()`, the trials are run and recorded as above. Under a monotone counter, the timestamps are ordered and each late time is at most its full time. |
| Ftalat.Globals.RunTest | main.c:79-241 | The reference statistics are those of the two samples, with the quartiles taken by the corrected comparer on full values, and the verdict is the gate's, which is never the unreachable fourth branch. If the verdict is indistinguishable, no trial runs and no record changes. Otherwise NB_REPORT_TIMES trials run, and the records hold their times, zeroed when invalid with timestamps carried forward. |
| Utils.Step | utils.c:60-72 | One call loses no information: `Unstep` recovers the state before the call from the state after it. |
| Utils.UnscrambleScramble | utils.c:62-64 | The three xorshifts on `x` can be undone, so no two words scramble to the same word. |
| Utils.ScrambleUnscramble | utils.c:62-64 | Every 64-bit word is the scramble of some word. |
| Utils.StepBijective | utils.c:60-72 | One call is a bijection on states, with an explicit inverse. |
| Utils.StepZero | utils.c:62-71 | A call leads to the all-zero state exactly from the all-zero state. |
| Utils.ZeroIsolated | utils.c:62-71 | From the all-zero state every call returns 0 and the state stays zero. From any other state it is never reached. |
| Utils.Xorshf96.constructor | utils.c:58 | The static state starts at (123456789, 362436069, 521288629). |
| Utils.Xorshf96.Next | utils.c:60-72 | One call sets the new x to the old y and the new y to the old z. The new z is the scrambled old x xor old y xor old z, and the call returns the new z. |
| Utils.Xorshf96.Draw | utils.c:60-72 | k successive calls return the first k outputs of the state they start from. |
| Utils.TwoRuns | utils.c:58 | Two runs from the fixed seed draw identical values, namely the seed's outputs. |

## Left out

- I/O and the operating system are not modelled: `waitCurFreq` (main.c:101, 111), `sync()`, `warmup_cpuid()`, the `_DUMP` hooks, all `fprintf` reporting, and the report table at main.c:243-254.
- The busy `wait(NB_WAIT_US)` after each trial (main.c:223) is not modelled. It reads the wall clock. When built with NB_WAIT_RANDOM it also draws from `xorshf96`; the generator is modelled on its own (`Utils`).
- The `NB_REPORT_TIMES == 1` branch (main.c:232-239) is left out. It refers to an undefined `j` and `NB_TRY_REPET` and does not compile.
- `loop()`, the timestamp counter and `setFreq` are not modelled; they are the oracle `Machine` (loop.c, FreqSetter.c and FreqGetter.c are not part of this model).
- `dump` (ConfInterval.c:37-41) is pure output formatting and is not modelled.
- `isInsideQ1Q3` is declared in ConfInterval.h and defined nowhere, so it is not modelled.
- Floating point is not modelled. `average`, `sd` and `confidenceInterval` are computed over exact reals, with no rounding, overflow, NaN or infinity. The same holds for the comparisons of `double` averages and the 0.95/1.05 widening in the gate and the revert loop.
- `sqrt` is a parameter satisfying `IsSquareRoot`, not a computed function.
- Words.ToULong: a `double` outside the range of `unsigned long` is undefined in C. The model takes it modulo 2^64, which is what x86-64 does for small negative values.
- ConfInterval.InterQuartileRange: requires 3 * n < 2^32, because for larger n the `unsigned int` product `3 * n` wraps. The source has no guard against this.
- ConfInterval.InterQuartileRangeAsWritten: requires 3 * n < 2^32, for the same reason.
- ConfInterval.Q1Index: requires n >= 1. With n = 0 the source reads `times[0]` of an empty sample, which is outside the sample.
- ConfInterval.Q3Index: requires n >= 1, for the same reason. It models the wrap of `3 * n` modulo 2^32, but promises 3n/4 and Q3 >= Q1 only when `3 * n` does not wrap. From n = 1431655766 on the index can fall below Q1's (`Q3IndexWraps`), which is why `InterQuartileRange` requires 3 * n < 2^32.
- ConfInterval.Summary: requires fewer than 2^32 samples, since `NbTimes` is an `unsigned int`.
- ConfInterval.ConstantSampleSummary: requires fewer than 2^32 samples, since `NbTimes` is an `unsigned int`.
- ConfInterval.SummaryOverlapsItself: requires fewer than 2^32 samples, since `NbTimes` is an `unsigned int`.
- ConfInterval.BuildFromMeasurement: uses the corrected comparer on full values, not `comparer` as written. The source orders by the low 32 bits and can fail the assertion at ConfInterval.c:136 when a sample is at least 2^32. `InterQuartileRangeAsWritten` states that behaviour, and `ComparerKeyAgreesBelow2To32` shows the two sorts agree when every sample is below 2^32.
- ConfInterval.BuildFromMeasurement: requires at least two samples. With one, `sd` divides by n - 1 = 0 and the `double` result is NaN, which reals do not have.
- Ftalat.Globals.MeasureLoop: requires n >= 1, since `average` of no samples divides by 0.
- Qsort.SortByKey: the library's `qsort` is represented by an insertion sort. The contract states only what any correct `qsort` guarantees: the result is ordered by the key and is a permutation. The order among equal keys is not specified.
- Ftalat.Globals.CharacterizeTarget: takes the quartiles with the corrected comparer on full values, not `comparer` as written (main.c:108 calls `interQuartileRange`). For durations of 2^32 cycles or more the source can abort at ConfInterval.c:136 (see Findings).
- Ftalat.Globals.Characterize: inherits the corrected comparer from `CharacterizeTarget`. The source's quartiles differ only when a duration is at least 2^32.
- Ftalat.Globals.RunTest: inherits the corrected comparer from `CharacterizeTarget`. The source's quartiles differ only when a duration is at least 2^32.
- Ftalat.Globals.RunTest: requires that the durations return to the widened start band infinitely often (`RevertsInfinitelyOften`). The revert loop has no cap, and without this liveness assumption `runTest` need not terminate.
- Ftalat.Globals.RevertAndCheck: requires the same liveness assumption as `RunTest`, since it contains the uncapped revert loop.
- Ftalat.Globals.ValidateTrial: requires the same liveness assumption as `RunTest`, since it contains the uncapped revert loop.
- Ftalat.Globals.TimeAndValidate: requires the same liveness assumption as `RunTest`, since it contains the uncapped revert loop.
- Ftalat.Globals.RunTrial: requires the same liveness assumption as `RunTest`, since it contains the uncapped revert loop.
- Ftalat.Globals.NextTrial: requires the same liveness assumption as `RunTest`, since it contains the uncapped revert loop.
- Ftalat.Globals.RunTrials: requires the same liveness assumption as `RunTest`, since it contains the uncapped revert loop.
- Ftalat.Globals.WarmUpAndRunTrials: requires the same liveness assumption as `RunTest`, since it contains the uncapped revert loop.
- Ftalat.Globals.RunTest: the per-trial facts are stated through `TrialsConsistent`. This gives the detection exit and call count, the validation samples and the validation verdict of every trial, as `TrialsConsistentEach` unfolds. The exact oracle positions of each trial's samples are stated per trial (`RunTrial`) rather than for the whole run.
- Ftalat.LateNotLongerThanFull: holds only when the counter does not wrap between the readings of one trial. `MonotoneClock` states this for the whole run.
- Utils.Xorshf96.Next: the "period 2^96-1" comment describes the 32-bit original, not this 64-bit variant, and is not proved.

## Findings

| source | as written | input that shows it | evidently intended | confidence | as-written member | corrected member |
|---|---|---|---|---|---|---|
| ConfInterval.c:111-113 | `comparer` reads an `unsigned int` at the address of each `unsigned long`, so on little-endian x86-64 `qsort` orders samples by their low 32 bits only, and `assert(Q1 <= Q3)` at line 136 can fail | the sample [2^32, 2^32, 1, 1]: sorted by the low 32 bits it is [2^32, 2^32, 1, 1], so Q1 = times[1] = 2^32 > Q3 = times[3] = 1 | order by the full `unsigned long` value, so that Q1 <= Q3 always holds | not executed | ConfInterval.InterQuartileRangeAsWritten, ConfInterval.ComparerKeyBreaksQuartileOrder | ConfInterval.InterQuartileRange, ConfInterval.BuildFromMeasurement, Ftalat.Globals.CharacterizeTarget, Ftalat.Globals.Characterize, Ftalat.Globals.RunTest |
