/**
 * main.c: `measureLoop` and `runTest`, the protocol that characterizes the loop's
 * duration at the target and the start frequency, refuses to go on when the two
 * cannot be told apart, and then times NB_REPORT_TIMES frequency transitions,
 * validating each one and recording it in three global arrays.
 */
module Ftalat {
  import opened Words
  import opened Qsort
  import opened ConfInterval
  import opened Hardware

  const NB_BENCH_META_REPET: nat := 10000
  const NB_VALIDATION_REPET: nat := 100
  const NB_TRY_REPET_LOOP: nat := 1000000

  /** The detection band test: `time` within [low, high]; a reversed band admits nothing. */
  predicate InBand(time: uint64, low: uint64, high: uint64)
    ensures InBand(time, low, high) <==> low <= time <= high
    ensures high < low ==> !InBand(time, low, high)
  {
    !(time < low || time > high)
  }

  /**
   * The revert loop's exit test, the start interval widened by 5% on each side; it
   * accepts every duration of the start interval itself.
   */
  predicate InRevertBand(time: uint64, startLow: uint64, startHigh: uint64)
    ensures InRevertBand(time, startLow, startHigh) <==>
      startLow as real * 0.95 <= time as real <= startHigh as real * 1.05
    ensures startLow <= time <= startHigh ==> InRevertBand(time, startLow, startHigh)
  {
    !(time as real < startLow as real * 0.95 || time as real > startHigh as real * 1.05)
  }

  /** Some call of loop() at or after `from` lands in the revert band. */
  ghost predicate EventuallyInRevertBand(durations: nat -> uint64, from: nat, startLow: uint64, startHigh: uint64) {
    exists k: nat :: from <= k && InRevertBand(durations(k), startLow, startHigh)
  }

  /**
   * The machine keeps returning to the start frequency: however many calls have been
   * made, a later one lands in the revert band. Without it the revert loop need not end.
   */
  ghost predicate RevertsInfinitelyOften(durations: nat -> uint64, startLow: uint64, startHigh: uint64) {
    forall from: nat :: EventuallyInRevertBand(durations, from, startLow, startHigh)
  }

  /** The liveness requirement, taken at one point. */
  lemma EventuallyFrom(durations: nat -> uint64, from: nat, startLow: uint64, startHigh: uint64)
    requires RevertsInfinitelyOften(durations, startLow, startHigh)
    ensures EventuallyInRevertBand(durations, from, startLow, startHigh)
  {
  }

  function Max(a: uint64, b: uint64): uint64 {
    if a < b then b else a
  }

  function Min(a: uint64, b: uint64): uint64 {
    if a < b then a else b
  }

  /**
   * A validation interval `v` that lies entirely on one side of the reference `ref`:
   * for well-formed intervals, exactly when they share no point (the larger lower
   * bound is above the smaller upper bound).
   */
  predicate Disjoint(v: (uint64, uint64), ref: (uint64, uint64))
    ensures v.0 <= v.1 && ref.0 <= ref.1 ==>
      (Disjoint(v, ref) <==> Min(v.1, ref.1) < Max(v.0, ref.0))
  {
    v.1 < ref.0 || v.0 > ref.1
  }

  // ---------------------------------------------------------------- polling loops

  /**
   * The detection do-while: call loop() until its duration is within [low, high],
   * or until `++niters` reaches `cap`.
   */
  method Detect(m: Machine, low: uint64, high: uint64, cap: nat)
    returns (time: uint64, niters: nat, m': Machine)
    requires 1 <= cap
    ensures niters <= cap
    ensures InBand(time, low, high) <==> niters < cap
    ensures m' == m.Skip(if InBand(time, low, high) then niters + 1 else cap)
    ensures time == m.durations(m'.calls - 1)
    ensures forall k :: m.calls <= k < m'.calls - 1 ==> !InBand(m.durations(k), low, high)
  {
    time, niters, m' := 0, 0, m;
    var again := true;
    while again
      invariant niters <= cap
      invariant again ==> niters < cap && m' == m.Skip(niters)
      invariant !again ==> m.calls < m'.calls && time == m.durations(m'.calls - 1)
      invariant !again ==> if InBand(time, low, high) then niters < cap && m' == m.Skip(niters + 1)
                           else niters == cap && m' == m.Skip(cap)
      invariant forall k :: m.calls <= k < m.calls + niters ==> !InBand(m.durations(k), low, high)
      decreases cap - niters + (if again then 1 else 0)
    {
      time, m' := Loop(m');
      if InBand(time, low, high) {
        again := false;
      } else {
        niters := niters + 1;
        again := niters < cap;
      }
    }
  }

  /**
   * The timed part of a trial: a counter reading, `setFreq(targetFreq)`, a second
   * reading, the detection loop against [low, high], and a final reading.
   */
  method TimeSwitch(low: uint64, high: uint64, targetFreq: uint32, m: Machine)
    returns (startLoopTime: uint64, lateStartLoopTime: uint64, endLoopTime: uint64,
             detected: uint64, niters: nat, detectCalls: nat, m': Machine)
    ensures startLoopTime == m.clock(m.stamps) && lateStartLoopTime == m.clock(m.stamps + 1)
    ensures endLoopTime == m.clock(m.stamps + 2)
    ensures niters <= NB_TRY_REPET_LOOP
    ensures InBand(detected, low, high) <==> niters < NB_TRY_REPET_LOOP
    ensures detectCalls == if InBand(detected, low, high) then niters + 1 else NB_TRY_REPET_LOOP
    ensures detected == m.durations(m.calls + detectCalls - 1)
    ensures forall k :: m.calls <= k < m.calls + detectCalls - 1 ==> !InBand(m.durations(k), low, high)
    ensures m' == m.(calls := m.calls + detectCalls, stamps := m.stamps + 3, requests := m.requests + [targetFreq])
  {
    startLoopTime, m' := ReadTsc(m);
    m' := SetFreq(m', targetFreq);
    lateStartLoopTime, m' := ReadTsc(m');
    var detectFrom := m'.calls;
    detected, niters, m' := Detect(m', low, high, NB_TRY_REPET_LOOP);
    detectCalls := m'.calls - detectFrom;
    endLoopTime, m' := ReadTsc(m');
  }

  /** The revert do-while: call loop() until its duration is in the revert band; no cap. */
  method Revert(m: Machine, startLow: uint64, startHigh: uint64) returns (time: uint64, m': Machine)
    requires EventuallyInRevertBand(m.durations, m.calls, startLow, startHigh)
    ensures InRevertBand(time, startLow, startHigh)
    ensures m.calls < m'.calls && m' == m.Skip(m'.calls - m.calls)
    ensures time == m.durations(m'.calls - 1)
    ensures forall k :: m.calls <= k < m'.calls - 1 ==> !InRevertBand(m.durations(k), startLow, startHigh)
  {
    ghost var w :| m.calls <= w && InRevertBand(m.durations(w), startLow, startHigh);
    time, m' := Loop(m);
    while !InRevertBand(time, startLow, startHigh)
      invariant m.calls < m'.calls <= w + 1
      invariant m' == m.Skip(m'.calls - m.calls)
      invariant time == m.durations(m'.calls - 1)
      invariant forall k :: m.calls <= k < m'.calls - 1 ==> !InRevertBand(m.durations(k), startLow, startHigh)
      decreases w + 1 - m'.calls
    {
      time, m' := Loop(m');
    }
  }

  // ---------------------------------------------------------------- the distinguishability gate

  /** The statistics `runTest` gathers before any trial. */
  datatype References = References(
    targetAverage: real, targetLow: uint64, targetHigh: uint64, targetQ1: uint64, targetQ3: uint64,
    startAverage: real, startLow: uint64, startHigh: uint64)

  /** Which message the gate prints; Indistinguishable is the one that returns. */
  datatype Verdict = Separated | Indistinguishable | Inconclusive | NoVerdict

  /**
   * The gate of `runTest`, branch for branch. The `else if` guard is true whenever it
   * is reached, so the gate always prints a verdict; `runTest` stops before any trial
   * exactly when the confidence intervals are not disjoint and one average lies inside
   * the other frequency's interval.
   */
  function Gate(r: References): (v: Verdict)
    ensures v != NoVerdict
    ensures v == Separated <==> r.startLow >= r.targetHigh || r.targetLow >= r.startHigh
    ensures v == Indistinguishable <==>
      && !(r.startLow >= r.targetHigh || r.targetLow >= r.startHigh)
      && (|| (r.targetLow as real <= r.startAverage <= r.targetHigh as real)
          || (r.startLow as real <= r.targetAverage <= r.startHigh as real))
  {
    if r.startLow >= r.targetHigh || r.targetLow >= r.startHigh then Separated
    else if r.startLow < r.targetHigh || r.targetLow > r.startHigh then
      if || (r.startAverage >= r.targetLow as real && r.startAverage <= r.targetHigh as real)
         || (r.targetAverage >= r.startLow as real && r.targetAverage <= r.startHigh as real)
      then Indistinguishable
      else Inconclusive
    else NoVerdict
  }

  /**
   * The gate's inline test is `overlapSignificantly` of ConfInterval.c applied to the
   * two reference intervals, guarded by their not being disjoint.
   */
  lemma GateIsOverlapSignificantly(r: References)
    ensures Gate(r) == Indistinguishable <==>
      && !(r.startLow >= r.targetHigh || r.targetLow >= r.startHigh)
      && OverlapSignificantly(
           ConfidenceInterval(r.startAverage, 0.0, r.startLow, r.startHigh, 0, 0),
           ConfidenceInterval(r.targetAverage, 0.0, r.targetLow, r.targetHigh, r.targetQ1, r.targetQ3))
  {
  }

  // ---------------------------------------------------------------- trials

  /** The record of one trial: its timestamps, its detection, its two validation samples. */
  datatype Trial = Trial(
    start: uint64, lateStart: uint64, end: uint64,
    detected: uint64, niters: nat, detectCalls: nat, revertCalls: nat,
    targetCheck: seq<uint64>, startCheck: seq<uint64>,
    validated: bool)

  /** What `measurements[it]` holds after trial `it`: the full switch time, or 0 if invalid. */
  function FullTime(t: Trial): uint64 {
    if t.validated then Sub64(t.end, t.start) else 0
  }

  /** What `measurements_late[it]` holds: the time since the frequency write, or 0 if invalid. */
  function LateTime(t: Trial): uint64 {
    if t.validated then Sub64(t.end, t.lateStart) else 0
  }

  /**
   * What one trial guarantees whatever the machine does: the detection loop's exit
   * condition and call count, the two validation samples both starting with the
   * detected duration, and `validated` cleared exactly when a validation interval is
   * disjoint from its reference interval.
   */
  ghost predicate TrialConsistent(t: Trial, ref: References, sqrt: real -> real)
    requires IsSquareRoot(sqrt)
  {
    && t.niters <= NB_TRY_REPET_LOOP
    && (InBand(t.detected, ref.targetQ1, ref.targetQ3) <==> t.niters < NB_TRY_REPET_LOOP)
    && t.detectCalls == (if InBand(t.detected, ref.targetQ1, ref.targetQ3) then t.niters + 1 else NB_TRY_REPET_LOOP)
    && |t.targetCheck| == NB_VALIDATION_REPET && t.targetCheck[0] == t.detected
    && |t.startCheck| == NB_VALIDATION_REPET && t.startCheck[0] == t.detected
    && (t.validated <==>
          && !Disjoint(SampleBounds(t.targetCheck, sqrt), (ref.targetLow, ref.targetHigh))
          && !Disjoint(SampleBounds(t.startCheck, sqrt), (ref.startLow, ref.startHigh)))
  }

  /** The trial's three timestamps are the counter readings `from`, `from + 1`, `from + 2`. */
  ghost predicate TrialTimed(t: Trial, clock: nat -> uint64, from: nat) {
    t.start == clock(from) && t.lateStart == clock(from + 1) && t.end == clock(from + 2)
  }

  /** `measurements` after the given trials. */
  function FullTimes(trials: seq<Trial>): (r: seq<uint64>)
    ensures |r| == |trials|
    ensures forall j :: 0 <= j < |trials| ==> r[j] == FullTime(trials[j])
  {
    if trials == [] then [] else FullTimes(trials[..|trials| - 1]) + [FullTime(trials[|trials| - 1])]
  }

  /** `measurements_late` after the given trials. */
  function LateTimes(trials: seq<Trial>): (r: seq<uint64>)
    ensures |r| == |trials|
    ensures forall j :: 0 <= j < |trials| ==> r[j] == LateTime(trials[j])
  {
    if trials == [] then [] else LateTimes(trials[..|trials| - 1]) + [LateTime(trials[|trials| - 1])]
  }

  /**
   * `measurements_timestamps` after the given trials: a valid trial (and the first
   * trial, valid or not) records its end reading, an invalid one repeats the entry
   * before it.
   */
  function RecordedTimestamps(trials: seq<Trial>): (r: seq<uint64>)
    ensures |r| == |trials|
  {
    if trials == [] then []
    else
      var before := RecordedTimestamps(trials[..|trials| - 1]);
      var t := trials[|trials| - 1];
      before + [if t.validated || before == [] then t.end else before[|before| - 1]]
  }

  /** The timestamp counter never goes backwards. */
  ghost predicate MonotoneClock(clock: nat -> uint64) {
    forall a: nat, b: nat :: a <= b ==> clock(a) <= clock(b)
  }

  /**
   * With a monotone counter, a trial's time since the frequency write never exceeds
   * its full time, as long as the counter does not wrap between the readings.
   */
  lemma LateNotLongerThanFull(t: Trial)
    requires t.start <= t.lateStart <= t.end
    ensures LateTime(t) <= FullTime(t)
  {
  }

  /**
   * Timestamps recorded from trials whose end readings never decrease never decrease
   * either, carried-forward entries included, and none is later than its own trial's end.
   */
  lemma {:induction false} RecordedTimestampsNondecreasing(trials: seq<Trial>)
    requires forall i, j :: 0 <= i <= j < |trials| ==> trials[i].end <= trials[j].end
    ensures forall i, j :: 0 <= i <= j < |trials| ==>
              RecordedTimestamps(trials)[i] <= RecordedTimestamps(trials)[j]
    ensures forall i :: 0 <= i < |trials| ==> RecordedTimestamps(trials)[i] <= trials[i].end
  {
    if trials != [] {
      var prefix := trials[..|trials| - 1];
      RecordedTimestampsNondecreasing(prefix);
      var before := RecordedTimestamps(prefix);
      assert RecordedTimestamps(trials)[..|prefix|] == before;
    }
  }

  /** Consecutive trials under a monotone counter: each reads start <= late <= end, in order. */
  lemma TimedTrialsInOrder(trials: seq<Trial>, ref: References, sqrt: real -> real, clock: nat -> uint64, from: nat)
    requires IsSquareRoot(sqrt) && MonotoneClock(clock)
    requires TrialsConsistent(trials, ref, sqrt, clock, from)
    ensures forall j :: 0 <= j < |trials| ==> trials[j].start <= trials[j].lateStart <= trials[j].end
    ensures forall i, j :: 0 <= i <= j < |trials| ==> trials[i].end <= trials[j].end
  {
    forall i, j | 0 <= i <= j < |trials|
      ensures trials[i].end <= trials[j].end
    {
      TrialsConsistentAt(trials, ref, sqrt, clock, from, i);
      TrialsConsistentAt(trials, ref, sqrt, clock, from, j);
    }
    forall j | 0 <= j < |trials|
      ensures trials[j].start <= trials[j].lateStart <= trials[j].end
    {
      TrialsConsistentAt(trials, ref, sqrt, clock, from, j);
    }
  }

  /** `TrialsConsistent`, trial by trial. */
  lemma TrialsConsistentEach(trials: seq<Trial>, ref: References, sqrt: real -> real, clock: nat -> uint64, from: nat)
    requires IsSquareRoot(sqrt) && TrialsConsistent(trials, ref, sqrt, clock, from)
    ensures forall j :: 0 <= j < |trials| ==>
              TrialConsistent(trials[j], ref, sqrt) && TrialTimed(trials[j], clock, from + 3 * j)
  {
    forall j | 0 <= j < |trials|
      ensures TrialConsistent(trials[j], ref, sqrt) && TrialTimed(trials[j], clock, from + 3 * j)
    {
      TrialsConsistentAt(trials, ref, sqrt, clock, from, j);
    }
  }

  /**
   * Under a monotone counter the recorded timestamps never decrease and every late
   * time is within its full time.
   */
  lemma RecordsOrdered(trials: seq<Trial>, ref: References, sqrt: real -> real, clock: nat -> uint64, from: nat,
                       full: seq<uint64>, late: seq<uint64>, stamps: seq<uint64>)
    requires IsSquareRoot(sqrt) && MonotoneClock(clock)
    requires TrialsConsistent(trials, ref, sqrt, clock, from)
    requires full == FullTimes(trials) && late == LateTimes(trials) && stamps == RecordedTimestamps(trials)
    ensures forall i, j :: 0 <= i <= j < |stamps| ==> stamps[i] <= stamps[j]
    ensures forall j :: 0 <= j < |late| ==> late[j] <= full[j]
  {
    TimedTrialsInOrder(trials, ref, sqrt, clock, from);
    RecordedTimestampsNondecreasing(trials);
    forall j | 0 <= j < |trials|
      ensures late[j] <= full[j]
    {
      LateNotLongerThanFull(trials[j]);
    }
  }

  /** Overwriting entry `it` extends the prefix before it by the new value. */
  lemma UpdateExtends(before: seq<uint64>, after: seq<uint64>, it: nat, x: uint64)
    requires it < |before| && after == before[it := x]
    ensures after[..it + 1] == before[..it] + [x]
    ensures after[it + 1..] == before[it + 1..]
  {
  }

  /** One more trial appends one entry to each record. */
  lemma RecordsExtend(trials: seq<Trial>, t: Trial)
    ensures FullTimes(trials + [t]) == FullTimes(trials) + [FullTime(t)]
    ensures LateTimes(trials + [t]) == LateTimes(trials) + [LateTime(t)]
    ensures RecordedTimestamps(trials + [t]) == RecordedTimestamps(trials) +
              [if t.validated || trials == [] then t.end else RecordedTimestamps(trials)[|trials| - 1]]
  {
    assert (trials + [t])[..|trials|] == trials;
  }

  /** The three records after one more trial, entry `|trials|` written as `runTest` writes it. */
  lemma RecordsAfterTrial(trials: seq<Trial>, t: Trial,
                          full: seq<uint64>, late: seq<uint64>, stamps: seq<uint64>,
                          full': seq<uint64>, late': seq<uint64>, stamps': seq<uint64>)
    requires |trials| < |full| && |trials| < |late| && |trials| < |stamps|
    requires full[..|trials|] == FullTimes(trials)
    requires late[..|trials|] == LateTimes(trials)
    requires stamps[..|trials|] == RecordedTimestamps(trials)
    requires full' == full[|trials| := FullTime(t)]
    requires late' == late[|trials| := LateTime(t)]
    requires stamps' == stamps[|trials| :=
               if t.validated || |trials| == 0 then t.end else stamps[|trials| - 1]]
    ensures full'[..|trials| + 1] == FullTimes(trials + [t])
    ensures late'[..|trials| + 1] == LateTimes(trials + [t])
    ensures stamps'[..|trials| + 1] == RecordedTimestamps(trials + [t])
  {
    var it := |trials|;
    UpdateExtends(full, full', it, FullTime(t));
    UpdateExtends(late, late', it, LateTime(t));
    UpdateExtends(stamps, stamps', it, stamps'[it]);
    RecordsExtend(trials, t);
  }

  /**
   * Every trial so far is consistent and read its timestamps in turn, trial `j`
   * reading counter entries `from + 3 * j` to `from + 3 * j + 2`.
   */
  ghost predicate TrialsConsistent(trials: seq<Trial>, ref: References, sqrt: real -> real, clock: nat -> uint64, from: nat)
    requires IsSquareRoot(sqrt)
  {
    trials != [] ==>
      && TrialsConsistent(trials[..|trials| - 1], ref, sqrt, clock, from)
      && TrialConsistent(trials[|trials| - 1], ref, sqrt)
      && TrialTimed(trials[|trials| - 1], clock, from + 3 * (|trials| - 1))
  }

  /** Appending a consistent trial that read the next three timestamps keeps them all consistent. */
  lemma TrialsExtend(trials: seq<Trial>, t: Trial, ref: References, sqrt: real -> real,
                     clock: nat -> uint64, from: nat, at: nat)
    requires IsSquareRoot(sqrt)
    requires TrialsConsistent(trials, ref, sqrt, clock, from)
    requires TrialConsistent(t, ref, sqrt) && TrialTimed(t, clock, at) && at == from + 3 * |trials|
    ensures TrialsConsistent(trials + [t], ref, sqrt, clock, from)
  {
    assert (trials + [t])[..|trials|] == trials;
  }

  /** What `TrialsConsistent` says of each trial. */
  lemma {:induction false} TrialsConsistentAt(trials: seq<Trial>, ref: References, sqrt: real -> real,
                                              clock: nat -> uint64, from: nat, j: nat)
    requires IsSquareRoot(sqrt)
    requires TrialsConsistent(trials, ref, sqrt, clock, from) && j < |trials|
    ensures TrialConsistent(trials[j], ref, sqrt) && TrialTimed(trials[j], clock, from + 3 * j)
  {
    if j < |trials| - 1 {
      TrialsConsistentAt(trials[..|trials| - 1], ref, sqrt, clock, from, j);
    }
  }

  /** The frequency requests of `k` trials: target, then start, each time. */
  function TrialRequests(targetFreq: uint32, startFreq: uint32, k: nat): (s: seq<uint32>)
    ensures |s| == 2 * k
  {
    if k == 0 then [] else TrialRequests(targetFreq, startFreq, k - 1) + [targetFreq, startFreq]
  }

  /** The target sample: the first NB_BENCH_META_REPET durations. */
  function TargetSample(m: Machine): seq<uint64> {
    m.Upcoming(NB_BENCH_META_REPET)
  }

  /** The start sample: the NB_BENCH_META_REPET durations after the target sample. */
  function StartSample(m: Machine): seq<uint64> {
    m.Skip(NB_BENCH_META_REPET).Upcoming(NB_BENCH_META_REPET)
  }

  /** The program's global buffers. */
  class Globals {
    const times: array<uint64>
    const measurements: array<uint64>
    const measurementsLate: array<uint64>
    const measurementsTimestamps: array<uint64>

    ghost predicate Valid() {
      && times.Length == NB_BENCH_META_REPET
      && measurementsLate.Length == measurements.Length
      && measurementsTimestamps.Length == measurements.Length
      && times != measurements && times != measurementsLate && times != measurementsTimestamps
      && measurements != measurementsLate && measurements != measurementsTimestamps
      && measurementsLate != measurementsTimestamps
    }

    /** The zero-initialized globals, with NB_REPORT_TIMES = `reportTimes`. */
    constructor (reportTimes: nat)
      ensures Valid() && measurements.Length == reportTimes
      ensures forall i :: 0 <= i < times.Length ==> times[i] == 0
      ensures forall i :: 0 <= i < reportTimes ==>
                measurements[i] == 0 && measurementsLate[i] == 0 && measurementsTimestamps[i] == 0
      ensures fresh(times) && fresh(measurements) && fresh(measurementsLate) && fresh(measurementsTimestamps)
    {
      times := new uint64[NB_BENCH_META_REPET](_ => 0);
      measurements := new uint64[reportTimes](_ => 0);
      measurementsLate := new uint64[reportTimes](_ => 0);
      measurementsTimestamps := new uint64[reportTimes](_ => 0);
    }

    /** `measureLoop`: fills `times[0..n)` with successive loop() results and returns their mean. */
    method MeasureLoop(nbMetaRepet: nat, m: Machine) returns (averageTime: real, m': Machine)
      requires Valid() && 1 <= nbMetaRepet <= times.Length
      modifies times
      ensures times[..nbMetaRepet] == m.Upcoming(nbMetaRepet)
      ensures times[nbMetaRepet..] == old(times[nbMetaRepet..])
      ensures m' == m.Skip(nbMetaRepet)
      ensures averageTime == Mean(m.Upcoming(nbMetaRepet))
    {
      m' := m;
      var i := 0;
      while i < nbMetaRepet
        invariant 0 <= i <= nbMetaRepet
        invariant m' == m.Skip(i)
        invariant times[..i] == m.Upcoming(i)
        invariant times[nbMetaRepet..] == old(times[nbMetaRepet..])
      {
        times[i], m' := Loop(m');
        i := i + 1;
      }
      averageTime := Average(nbMetaRepet, times);
    }

    /** `average`, `sd` and `confidenceInterval` over `times[0..n)`. */
    method SampleConfidenceBounds(n: nat, sqrt: real -> real) returns (low: uint64, high: uint64)
      requires 2 <= n <= times.Length && IsSquareRoot(sqrt)
      ensures (low, high) == SampleBounds(times[..n], sqrt)
    {
      var average := Average(n, times);
      var deviation := Sd(n, average, times, sqrt);
      var bounds := ConfidenceBounds(average, StandardError(n, deviation, sqrt));
      low, high := bounds.0, bounds.1;
    }

    /** The validation loop: `times[1..NB_VALIDATION_REPET)` get fresh loop() results. */
    method CollectValidationSample(m: Machine) returns (m': Machine)
      requires Valid()
      modifies times
      ensures times[0] == old(times[0])
      ensures times[1..NB_VALIDATION_REPET] == m.Upcoming(NB_VALIDATION_REPET - 1)
      ensures times[NB_VALIDATION_REPET..] == old(times[NB_VALIDATION_REPET..])
      ensures m' == m.Skip(NB_VALIDATION_REPET - 1)
    {
      m' := m;
      var i := 1;
      while i < NB_VALIDATION_REPET
        invariant 1 <= i <= NB_VALIDATION_REPET
        invariant m' == m.Skip(i - 1)
        invariant times[0] == old(times[0])
        invariant times[1..i] == m.Upcoming(i - 1)
        invariant times[NB_VALIDATION_REPET..] == old(times[NB_VALIDATION_REPET..])
      {
        times[i], m' := Loop(m');
        i := i + 1;
      }
    }

    /**
     * The validation sample and its check: `times[0]` is kept, `times[1..100)` are
     * fresh loop() results, and `inside` is cleared exactly when the sample's
     * confidence interval is disjoint from [refLow, refHigh].
     */
    method ValidationCheck(refLow: uint64, refHigh: uint64, sqrt: real -> real, m: Machine)
      returns (inside: bool, sample: seq<uint64>, m': Machine)
      requires Valid() && IsSquareRoot(sqrt)
      modifies times
      ensures |sample| == NB_VALIDATION_REPET && sample[0] == old(times[0])
      ensures sample[1..] == Window(m.durations, m.calls, NB_VALIDATION_REPET - 1)
      ensures times[..NB_VALIDATION_REPET] == sample
      ensures times[NB_VALIDATION_REPET..] == old(times[NB_VALIDATION_REPET..])
      ensures m' == m.Skip(NB_VALIDATION_REPET - 1)
      ensures inside <==> !Disjoint(SampleBounds(sample, sqrt), (refLow, refHigh))
    {
      m' := CollectValidationSample(m);
      var validateLow, validateHigh := SampleConfidenceBounds(NB_VALIDATION_REPET, sqrt);
      sample := times[..NB_VALIDATION_REPET];
      inside := !(validateHigh < refLow || validateLow > refHigh);
    }

    /** The three writes made right after detection, at index `it` only. */
    method RecordTrial(it: nat, startLoopTime: uint64, lateStartLoopTime: uint64, endLoopTime: uint64)
      requires Valid() && it < measurements.Length
      modifies measurements, measurementsLate, measurementsTimestamps
      ensures measurements[..] == old(measurements[..])[it := Sub64(endLoopTime, startLoopTime)]
      ensures measurementsLate[..] == old(measurementsLate[..])[it := Sub64(endLoopTime, lateStartLoopTime)]
      ensures measurementsTimestamps[..] == old(measurementsTimestamps[..])[it := endLoopTime]
    {
      measurements[it] := Sub64(endLoopTime, startLoopTime);
      measurementsLate[it] := Sub64(endLoopTime, lateStartLoopTime);
      measurementsTimestamps[it] := endLoopTime;
    }

    /** An invalid trial: both times zeroed, the timestamp carried forward from `it - 1`. */
    method DiscardTrial(it: nat)
      requires Valid() && it < measurements.Length
      modifies measurements, measurementsLate, measurementsTimestamps
      ensures measurements[..] == old(measurements[..])[it := 0]
      ensures measurementsLate[..] == old(measurementsLate[..])[it := 0]
      ensures measurementsTimestamps[..] ==
                if it == 0 then old(measurementsTimestamps[..])
                else old(measurementsTimestamps[..])[it := old(measurementsTimestamps[it - 1])]
    {
      measurements[it] := 0;
      measurementsLate[it] := 0;
      if it > 0 {
        measurementsTimestamps[it] := measurementsTimestamps[it - 1];
      }
    }

    /**
     * The switch back and the second validation: `setFreq(startFreq)`, the revert
     * loop, and the check of a fresh sample against the start interval.
     */
    method RevertAndCheck(ref: References, startFreq: uint32, sqrt: real -> real, m: Machine)
      returns (inside: bool, revertCalls: nat, startCheck: seq<uint64>, m': Machine)
      requires Valid() && IsSquareRoot(sqrt)
      requires RevertsInfinitelyOften(m.durations, ref.startLow, ref.startHigh)
      modifies times
      ensures 1 <= revertCalls
      ensures InRevertBand(m.durations(m.calls + revertCalls - 1), ref.startLow, ref.startHigh)
      ensures forall k :: m.calls <= k < m.calls + revertCalls - 1 ==>
                !InRevertBand(m.durations(k), ref.startLow, ref.startHigh)
      ensures |startCheck| == NB_VALIDATION_REPET && startCheck[0] == old(times[0])
      ensures startCheck[1..] == Window(m.durations, m.calls + revertCalls, NB_VALIDATION_REPET - 1)
      ensures inside <==> !Disjoint(SampleBounds(startCheck, sqrt), (ref.startLow, ref.startHigh))
      ensures times[..NB_VALIDATION_REPET] == startCheck
      ensures times[NB_VALIDATION_REPET..] == old(times[NB_VALIDATION_REPET..])
      ensures m' == m.(calls := m.calls + revertCalls + NB_VALIDATION_REPET - 1, requests := m.requests + [startFreq])
    {
      m' := SetFreq(m, startFreq);
      EventuallyFrom(m'.durations, m'.calls, ref.startLow, ref.startHigh);
      var time;
      time, m' := Revert(m', ref.startLow, ref.startHigh);
      revertCalls := m'.calls - m.calls;
      inside, startCheck, m' := ValidationCheck(ref.startLow, ref.startHigh, sqrt, m');
    }

    /**
     * Both validations of a trial and the switch back between them: the check at the
     * target frequency, `setFreq(startFreq)`, the revert loop, the check at the start
     * frequency. `validated` is cleared when either check fails.
     */
    method ValidateTrial(ref: References, startFreq: uint32, sqrt: real -> real, m: Machine)
      returns (validated: bool, targetCheck: seq<uint64>, revertCalls: nat, startCheck: seq<uint64>, m': Machine)
      requires Valid() && IsSquareRoot(sqrt)
      requires RevertsInfinitelyOften(m.durations, ref.startLow, ref.startHigh)
      modifies times
      ensures |targetCheck| == NB_VALIDATION_REPET && targetCheck[0] == old(times[0])
      ensures targetCheck[1..] == Window(m.durations, m.calls, NB_VALIDATION_REPET - 1)
      ensures |startCheck| == NB_VALIDATION_REPET && startCheck[0] == old(times[0])
      ensures startCheck[1..] ==
                Window(m.durations, m.calls + NB_VALIDATION_REPET - 1 + revertCalls, NB_VALIDATION_REPET - 1)
      ensures var revertFrom := m.calls + NB_VALIDATION_REPET - 1;
              && 1 <= revertCalls
              && InRevertBand(m.durations(revertFrom + revertCalls - 1), ref.startLow, ref.startHigh)
              && forall k :: revertFrom <= k < revertFrom + revertCalls - 1 ==>
                   !InRevertBand(m.durations(k), ref.startLow, ref.startHigh)
      ensures validated <==>
                && !Disjoint(SampleBounds(targetCheck, sqrt), (ref.targetLow, ref.targetHigh))
                && !Disjoint(SampleBounds(startCheck, sqrt), (ref.startLow, ref.startHigh))
      ensures times[..NB_VALIDATION_REPET] == startCheck
      ensures times[NB_VALIDATION_REPET..] == old(times[NB_VALIDATION_REPET..])
      ensures m' == m.(calls := m.calls + 2 * (NB_VALIDATION_REPET - 1) + revertCalls, requests := m.requests + [startFreq])
    {
      validated := true;
      var inside;
      inside, targetCheck, m' := ValidationCheck(ref.targetLow, ref.targetHigh, sqrt, m);
      if !inside {
        validated := false;
      }

      var startInside;
      startInside, revertCalls, startCheck, m' := RevertAndCheck(ref, startFreq, sqrt, m');
      if !startInside {
        validated := false;
      }
    }

    /**
     * A trial up to its verdict: the timed switch, the writes at index `it`, and both
     * validations with the switch back in between.
     */
    method TimeAndValidate(it: nat, ref: References, targetFreq: uint32, startFreq: uint32,
                           sqrt: real -> real, m: Machine)
      returns (trial: Trial, m': Machine)
      requires Valid() && it < measurements.Length && IsSquareRoot(sqrt)
      requires RevertsInfinitelyOften(m.durations, ref.startLow, ref.startHigh)
      modifies times, measurements, measurementsLate, measurementsTimestamps
      ensures TrialConsistent(trial, ref, sqrt)
      ensures TrialTimed(trial, m.clock, m.stamps)
      ensures m' == m.(calls := m'.calls, stamps := m.stamps + 3, requests := m.requests + [targetFreq, startFreq])
      ensures m'.calls == m.calls + trial.detectCalls + trial.revertCalls + 2 * (NB_VALIDATION_REPET - 1)
      ensures trial.detected == m.durations(m.calls + trial.detectCalls - 1)
      ensures forall k :: m.calls <= k < m.calls + trial.detectCalls - 1 ==>
                !InBand(m.durations(k), ref.targetQ1, ref.targetQ3)
      ensures trial.targetCheck[1..] == Window(m.durations, m.calls + trial.detectCalls, NB_VALIDATION_REPET - 1)
      ensures trial.startCheck[1..] == Window(m.durations,
                m.calls + trial.detectCalls + NB_VALIDATION_REPET - 1 + trial.revertCalls, NB_VALIDATION_REPET - 1)
      ensures times[..NB_VALIDATION_REPET] == trial.startCheck
      ensures times[NB_VALIDATION_REPET..] == old(times[NB_VALIDATION_REPET..])
      ensures measurements[..] == old(measurements[..])[it := Sub64(trial.end, trial.start)]
      ensures measurementsLate[..] == old(measurementsLate[..])[it := Sub64(trial.end, trial.lateStart)]
      ensures measurementsTimestamps[..] == old(measurementsTimestamps[..])[it := trial.end]
    {
      var startLoopTime, lateStartLoopTime, endLoopTime, detected, niters, detectCalls;
      startLoopTime, lateStartLoopTime, endLoopTime, detected, niters, detectCalls, m' :=
        TimeSwitch(ref.targetQ1, ref.targetQ3, targetFreq, m);
      assert m'.durations == m.durations && m'.calls == m.calls + detectCalls;

      times[0] := detected;
      RecordTrial(it, startLoopTime, lateStartLoopTime, endLoopTime);

      var validated, targetCheck, revertCalls, startCheck;
      validated, targetCheck, revertCalls, startCheck, m' := ValidateTrial(ref, startFreq, sqrt, m');
      trial := Trial(startLoopTime, lateStartLoopTime, endLoopTime, detected,
                     niters, detectCalls, revertCalls, targetCheck, startCheck, validated);
    }

    /**
     * One iteration `it` of the trial loop: time the switch to the target frequency,
     * validate it twice, switch back, and record the result at index `it` only,
     * zeroed and with the previous timestamp when the trial is invalid.
     */
    method RunTrial(it: nat, ref: References, targetFreq: uint32, startFreq: uint32,
                    sqrt: real -> real, m: Machine)
      returns (trial: Trial, m': Machine)
      requires Valid() && it < measurements.Length && IsSquareRoot(sqrt)
      requires RevertsInfinitelyOften(m.durations, ref.startLow, ref.startHigh)
      modifies times, measurements, measurementsLate, measurementsTimestamps
      ensures TrialConsistent(trial, ref, sqrt)
      ensures TrialTimed(trial, m.clock, m.stamps)
      ensures m' == m.(calls := m'.calls, stamps := m.stamps + 3, requests := m.requests + [targetFreq, startFreq])
      ensures m'.calls == m.calls + trial.detectCalls + trial.revertCalls + 2 * (NB_VALIDATION_REPET - 1)
      ensures trial.detected == m.durations(m.calls + trial.detectCalls - 1)
      ensures forall k :: m.calls <= k < m.calls + trial.detectCalls - 1 ==>
                !InBand(m.durations(k), ref.targetQ1, ref.targetQ3)
      ensures trial.targetCheck[1..] == Window(m.durations, m.calls + trial.detectCalls, NB_VALIDATION_REPET - 1)
      ensures trial.startCheck[1..] == Window(m.durations,
                m.calls + trial.detectCalls + NB_VALIDATION_REPET - 1 + trial.revertCalls, NB_VALIDATION_REPET - 1)
      ensures times[..NB_VALIDATION_REPET] == trial.startCheck
      ensures times[NB_VALIDATION_REPET..] == old(times[NB_VALIDATION_REPET..])
      ensures measurements[..] == old(measurements[..])[it := FullTime(trial)]
      ensures measurementsLate[..] == old(measurementsLate[..])[it := LateTime(trial)]
      ensures measurementsTimestamps[..] == old(measurementsTimestamps[..])[it :=
                if trial.validated || it == 0 then trial.end else old(measurementsTimestamps[it - 1])]
    {
      trial, m' := TimeAndValidate(it, ref, targetFreq, startFreq, sqrt, m);
      if !trial.validated {
        DiscardTrial(it);
      }
    }

    /**
     * The first half of the characterization at the head of `runTest`:
     * `setFreq(targetFreq)`, a sample of NB_BENCH_META_REPET durations, its mean, its
     * confidence interval and its quartiles (which leave `times` sorted).
     */
    method CharacterizeTarget(targetFreq: uint32, sqrt: real -> real, m: Machine)
      returns (average: real, low: uint64, high: uint64, q1: uint64, q3: uint64, m': Machine,
               ghost sorted: seq<uint64>)
      requires Valid() && IsSquareRoot(sqrt)
      modifies times
      ensures average == Mean(TargetSample(m))
      ensures (low, high) == SampleBounds(TargetSample(m), sqrt)
      ensures SortedBy(sorted, ValueKey) && multiset(sorted) == multiset(TargetSample(m))
      ensures |sorted| == NB_BENCH_META_REPET
      ensures q1 == sorted[Q1Index(NB_BENCH_META_REPET)] && q3 == sorted[Q3Index(NB_BENCH_META_REPET)]
      ensures q1 <= q3
      ensures m' == m.(calls := m.calls + NB_BENCH_META_REPET, requests := m.requests + [targetFreq])
    {
      m' := SetFreq(m, targetFreq);
      SameUpcoming(m', m, NB_BENCH_META_REPET);
      average, m' := MeasureLoop(NB_BENCH_META_REPET, m');
      var deviation := Sd(NB_BENCH_META_REPET, average, times, sqrt);
      var bounds := ConfidenceBounds(average, StandardError(NB_BENCH_META_REPET, deviation, sqrt));
      low, high := bounds.0, bounds.1;
      q1, q3 := InterQuartileRange(NB_BENCH_META_REPET, times);
      sorted := times[..];
      assert times[..NB_BENCH_META_REPET] == sorted;
    }

    /**
     * The second half: `setFreq(startFreq)`, a fresh sample of NB_BENCH_META_REPET
     * durations, its mean and its confidence interval.
     */
    method CharacterizeStart(startFreq: uint32, sqrt: real -> real, m: Machine)
      returns (average: real, low: uint64, high: uint64, m': Machine)
      requires Valid() && IsSquareRoot(sqrt)
      modifies times
      ensures average == Mean(m.Upcoming(NB_BENCH_META_REPET))
      ensures (low, high) == SampleBounds(m.Upcoming(NB_BENCH_META_REPET), sqrt)
      ensures m' == m.(calls := m.calls + NB_BENCH_META_REPET, requests := m.requests + [startFreq])
    {
      m' := SetFreq(m, startFreq);
      SameUpcoming(m', m, NB_BENCH_META_REPET);
      average, m' := MeasureLoop(NB_BENCH_META_REPET, m');
      var deviation := Sd(NB_BENCH_META_REPET, average, times, sqrt);
      var bounds := ConfidenceBounds(average, StandardError(NB_BENCH_META_REPET, deviation, sqrt));
      low, high := bounds.0, bounds.1;
    }

    /** Both characterizations, target then start, as `runTest` makes them. */
    method Characterize(startFreq: uint32, targetFreq: uint32, sqrt: real -> real, m: Machine)
      returns (ref: References, m': Machine, ghost sortedTarget: seq<uint64>)
      requires Valid() && IsSquareRoot(sqrt)
      modifies times
      ensures ref.targetAverage == Mean(TargetSample(m))
      ensures (ref.targetLow, ref.targetHigh) == SampleBounds(TargetSample(m), sqrt)
      ensures SortedBy(sortedTarget, ValueKey) && multiset(sortedTarget) == multiset(TargetSample(m))
      ensures |sortedTarget| == NB_BENCH_META_REPET
      ensures ref.targetQ1 == sortedTarget[Q1Index(NB_BENCH_META_REPET)]
      ensures ref.targetQ3 == sortedTarget[Q3Index(NB_BENCH_META_REPET)]
      ensures ref.targetQ1 <= ref.targetQ3
      ensures ref.startAverage == Mean(StartSample(m))
      ensures (ref.startLow, ref.startHigh) == SampleBounds(StartSample(m), sqrt)
      ensures m' == m.(calls := m.calls + 2 * NB_BENCH_META_REPET, requests := m.requests + [targetFreq, startFreq])
    {
      var targetAverage, targetLow, targetHigh, targetQ1, targetQ3;
      targetAverage, targetLow, targetHigh, targetQ1, targetQ3, m', sortedTarget :=
        CharacterizeTarget(targetFreq, sqrt, m);
      SameUpcoming(m', m.Skip(NB_BENCH_META_REPET), NB_BENCH_META_REPET);
      var startAverage, startLow, startHigh;
      startAverage, startLow, startHigh, m' := CharacterizeStart(startFreq, sqrt, m');
      ref := References(targetAverage, targetLow, targetHigh, targetQ1, targetQ3,
                        startAverage, startLow, startHigh);
    }

    /** The records of `trials`, the first `|trials|` entries of each global array. */
    ghost predicate Recorded(trials: seq<Trial>)
      requires Valid() && |trials| <= measurements.Length
      reads measurements, measurementsLate, measurementsTimestamps
    {
      && measurements[..|trials|] == FullTimes(trials)
      && measurementsLate[..|trials|] == LateTimes(trials)
      && measurementsTimestamps[..|trials|] == RecordedTimestamps(trials)
    }

    /** One pass of the trial loop's body: trial `|trials|` is run and recorded. */
    method NextTrial(trials: seq<Trial>, ref: References, targetFreq: uint32, startFreq: uint32,
                     sqrt: real -> real, m0: Machine, m: Machine)
      returns (trials': seq<Trial>, m': Machine)
      requires Valid() && IsSquareRoot(sqrt) && |trials| < measurements.Length
      requires RevertsInfinitelyOften(m.durations, ref.startLow, ref.startHigh)
      requires m.durations == m0.durations && m.clock == m0.clock && m.stamps == m0.stamps + 3 * |trials|
      requires m.requests == m0.requests + TrialRequests(targetFreq, startFreq, |trials|)
      requires TrialsConsistent(trials, ref, sqrt, m0.clock, m0.stamps)
      requires Recorded(trials)
      modifies times, measurements, measurementsLate, measurementsTimestamps
      ensures |trials'| == |trials| + 1 && trials'[..|trials|] == trials
      ensures m'.durations == m0.durations && m'.clock == m0.clock && m'.stamps == m0.stamps + 3 * |trials'|
      ensures m'.requests == m0.requests + TrialRequests(targetFreq, startFreq, |trials'|)
      ensures TrialsConsistent(trials', ref, sqrt, m0.clock, m0.stamps)
      ensures Recorded(trials')
    {
      var it := |trials|;
      ghost var full, late, stamps := measurements[..], measurementsLate[..], measurementsTimestamps[..];
      assert full[..it] == FullTimes(trials) && late[..it] == LateTimes(trials);
      assert stamps[..it] == RecordedTimestamps(trials);
      var trial;
      trial, m' := RunTrial(it, ref, targetFreq, startFreq, sqrt, m);
      ghost var full', late', stamps' := measurements[..], measurementsLate[..], measurementsTimestamps[..];
      assert full' == full[it := FullTime(trial)];
      assert late' == late[it := LateTime(trial)];
      assert stamps' == stamps[it := if trial.validated || it == 0 then trial.end else stamps[it - 1]];
      TrialsExtend(trials, trial, ref, sqrt, m0.clock, m0.stamps, m.stamps);
      RecordsAfterTrial(trials, trial, full, late, stamps, full', late', stamps');
      trials' := trials + [trial];
      assert trials'[..|trials|] == trials;
      assert m'.requests == m.requests + [targetFreq, startFreq];
    }

    /** The trial loop: trials `0 .. measurements.Length - 1`, in order. */
    method RunTrials(ref: References, targetFreq: uint32, startFreq: uint32, sqrt: real -> real, m: Machine)
      returns (trials: seq<Trial>, m': Machine)
      requires Valid() && IsSquareRoot(sqrt)
      requires RevertsInfinitelyOften(m.durations, ref.startLow, ref.startHigh)
      modifies times, measurements, measurementsLate, measurementsTimestamps
      ensures |trials| == measurements.Length
      ensures m'.durations == m.durations && m'.clock == m.clock && m'.stamps == m.stamps + 3 * |trials|
      ensures m'.requests == m.requests + TrialRequests(targetFreq, startFreq, |trials|)
      ensures TrialsConsistent(trials, ref, sqrt, m.clock, m.stamps)
      ensures measurements[..] == FullTimes(trials)
      ensures measurementsLate[..] == LateTimes(trials)
      ensures measurementsTimestamps[..] == RecordedTimestamps(trials)
    {
      trials := [];
      m' := m;
      for it := 0 to measurements.Length
        invariant |trials| == it
        invariant m'.durations == m.durations && m'.clock == m.clock && m'.stamps == m.stamps + 3 * it
        invariant m'.requests == m.requests + TrialRequests(targetFreq, startFreq, it)
        invariant TrialsConsistent(trials, ref, sqrt, m.clock, m.stamps)
        invariant Recorded(trials)
      {
        trials, m' := NextTrial(trials, ref, targetFreq, startFreq, sqrt, m, m');
      }
      assert measurements[..] == measurements[..|trials|];
      assert measurementsLate[..] == measurementsLate[..|trials|];
      assert measurementsTimestamps[..] == measurementsTimestamps[..|trials|];
    }

    /** The part of `runTest` after the gate: one warm-up call of loop(), then the trials. */
    method WarmUpAndRunTrials(ref: References, targetFreq: uint32, startFreq: uint32, sqrt: real -> real, m: Machine)
      returns (trials: seq<Trial>, m': Machine)
      requires Valid() && IsSquareRoot(sqrt)
      requires RevertsInfinitelyOften(m.durations, ref.startLow, ref.startHigh)
      modifies times, measurements, measurementsLate, measurementsTimestamps
      ensures |trials| == measurements.Length
      ensures m'.requests == m.requests + TrialRequests(targetFreq, startFreq, |trials|)
      ensures m'.stamps == m.stamps + 3 * |trials|
      ensures measurements[..] == FullTimes(trials)
      ensures measurementsLate[..] == LateTimes(trials)
      ensures measurementsTimestamps[..] == RecordedTimestamps(trials)
      ensures TrialsConsistent(trials, ref, sqrt, m.clock, m.stamps)
      ensures MonotoneClock(m.clock) ==>
                && (forall i, j :: 0 <= i <= j < |trials| ==> measurementsTimestamps[i] <= measurementsTimestamps[j])
                && (forall j :: 0 <= j < |trials| ==> measurementsLate[j] <= measurements[j])
    {
      var _, afterWarmUp := Loop(m);
      trials, m' := RunTrials(ref, targetFreq, startFreq, sqrt, afterWarmUp);
      if MonotoneClock(m.clock) {
        RecordsOrdered(trials, ref, sqrt, m.clock, m.stamps,
                       measurements[..], measurementsLate[..], measurementsTimestamps[..]);
      }
    }

    /**
     * `runTest`: characterize the loop at the target and at the start frequency, stop
     * if the gate finds them indistinguishable, otherwise make one warm-up call of
     * loop() and run `measurements.Length` trials (NB_REPORT_TIMES).
     */
    method RunTest(startFreq: uint32, targetFreq: uint32, sqrt: real -> real, m: Machine)
      returns (ref: References, verdict: Verdict, trials: seq<Trial>, m': Machine, ghost sortedTarget: seq<uint64>)
      requires Valid() && IsSquareRoot(sqrt)
      requires var startBounds := SampleBounds(StartSample(m), sqrt);
               RevertsInfinitelyOften(m.durations, startBounds.0, startBounds.1)
      modifies times, measurements, measurementsLate, measurementsTimestamps
      ensures ref.targetAverage == Mean(TargetSample(m))
      ensures (ref.targetLow, ref.targetHigh) == SampleBounds(TargetSample(m), sqrt)
      ensures SortedBy(sortedTarget, ValueKey) && multiset(sortedTarget) == multiset(TargetSample(m))
      ensures |sortedTarget| == NB_BENCH_META_REPET
      ensures ref.targetQ1 == sortedTarget[Q1Index(NB_BENCH_META_REPET)]
      ensures ref.targetQ3 == sortedTarget[Q3Index(NB_BENCH_META_REPET)]
      ensures ref.startAverage == Mean(StartSample(m))
      ensures (ref.startLow, ref.startHigh) == SampleBounds(StartSample(m), sqrt)
      ensures verdict == Gate(ref) && verdict != NoVerdict
      ensures verdict == Indistinguishable ==>
                && trials == []
                && m' == m.(calls := m.calls + 2 * NB_BENCH_META_REPET, requests := m.requests + [targetFreq, startFreq])
                && measurements[..] == old(measurements[..])
                && measurementsLate[..] == old(measurementsLate[..])
                && measurementsTimestamps[..] == old(measurementsTimestamps[..])
      ensures verdict != Indistinguishable ==>
                && |trials| == measurements.Length
                && m'.requests == m.requests + [targetFreq, startFreq] + TrialRequests(targetFreq, startFreq, |trials|)
                && m'.stamps == m.stamps + 3 * |trials|
                && measurements[..] == FullTimes(trials)
                && measurementsLate[..] == LateTimes(trials)
                && measurementsTimestamps[..] == RecordedTimestamps(trials)
      ensures TrialsConsistent(trials, ref, sqrt, m.clock, m.stamps)
      // with a monotone counter, the records are ordered and each late time is within its full time
      ensures verdict != Indistinguishable && MonotoneClock(m.clock) ==>
                && (forall i, j :: 0 <= i <= j < |trials| ==> measurementsTimestamps[i] <= measurementsTimestamps[j])
                && (forall j :: 0 <= j < |trials| ==> measurementsLate[j] <= measurements[j])
    {
      ref, m', sortedTarget := Characterize(startFreq, targetFreq, sqrt, m);
      verdict := Gate(ref);
      trials := [];
      if verdict == Indistinguishable {
        return;
      }

      trials, m' := WarmUpAndRunTrials(ref, targetFreq, startFreq, sqrt, m');
    }
  }
}
