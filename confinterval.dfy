/**
 * ConfInterval.c: the summary of a sample of loop durations (mean, standard
 * deviation, 95% confidence interval of the mean, inter-quartile band) and the
 * two interval comparisons.
 *
 * `double` arithmetic is modelled over exact reals; the square root is the one
 * operation reals lack, so it is a parameter `sqrt` constrained only by what a
 * square root is (IsSquareRoot).
 */
module ConfInterval {
  import opened Words
  import opened Qsort

  /** `float z_value = 1.960`: the z-score of a 95% confidence level. */
  const Z_VALUE: real := 1.960

  /** `struct ConfidenceInterval` */
  datatype ConfidenceInterval = ConfidenceInterval(
    average: real,
    standardDeviation: real,
    lowerBound: uint64,
    upperBound: uint64,
    q1: uint64,
    q3: uint64)

  /** `sqrt` returns the non-negative square root of every non-negative argument. */
  ghost predicate IsSquareRoot(sqrt: real -> real) {
    forall v :: 0.0 <= v ==> 0.0 <= sqrt(v) && sqrt(v) * sqrt(v) == v
  }

  lemma SqrtOfPositive(sqrt: real -> real, v: real)
    requires IsSquareRoot(sqrt) && 0.0 < v
    ensures 0.0 < sqrt(v)
  {
  }

  lemma SqrtOfZero(sqrt: real -> real)
    requires IsSquareRoot(sqrt)
    ensures sqrt(0.0) == 0.0
  {
    var r := sqrt(0.0);
    assert 0.0 <= r && r * r == 0.0;
    if r != 0.0 {
      calc {
        0.0;
        r * r;
      >
        0.0;
      }
    }
  }

  // ---------------------------------------------------------------- sample statistics

  /** The sum of a sample, accumulated front to back as the loops do. */
  function Sum(s: seq<uint64>): int {
    if s == [] then 0 else Sum(s[..|s| - 1]) + s[|s| - 1] as int
  }

  /** The arithmetic mean that `average` computes. */
  function Mean(s: seq<uint64>): real
    requires 1 <= |s|
  {
    Sum(s) as real / |s| as real
  }

  /** The sum of squared deviations from `avg`, the quantity `sd` accumulates. */
  function SquaredDeviations(s: seq<uint64>, avg: real): real {
    if s == [] then 0.0
    else
      var d := s[|s| - 1] as real - avg;
      SquaredDeviations(s[..|s| - 1], avg) + d * d
  }

  /** The sample variance, divisor n - 1. */
  function Variance(s: seq<uint64>): real
    requires 2 <= |s|
  {
    SquaredDeviations(s, Mean(s)) / (|s| - 1) as real
  }

  /** `average`: the mean of `times[0..n)`. */
  method Average(n: nat, times: array<uint64>) returns (averageTime: real)
    requires 1 <= n <= times.Length
    ensures averageTime == Mean(times[..n])
  {
    var sum := 0.0;
    var i := 0;
    while i < n
      invariant 0 <= i <= n
      invariant sum == Sum(times[..i]) as real
    {
      assert times[..i + 1][..i] == times[..i];
      sum := sum + times[i] as real;
      i := i + 1;
    }
    averageTime := sum / n as real;
  }

  /** `sd`: the sample standard deviation of `times[0..n)` around `average`. */
  method Sd(n: nat, average: real, times: array<uint64>, sqrt: real -> real) returns (deviation: real)
    requires 2 <= n <= times.Length
    ensures deviation == sqrt(SquaredDeviations(times[..n], average) / (n - 1) as real)
  {
    var variance := 0.0;
    var i := 0;
    while i < n
      invariant 0 <= i <= n
      invariant variance == SquaredDeviations(times[..i], average)
    {
      assert times[..i + 1][..i] == times[..i];
      var sum := times[i] as real - average;
      variance := variance + sum * sum;
      i := i + 1;
    }
    variance := variance / (n - 1) as real;
    deviation := sqrt(variance);
  }

  /** The standard error `z * sd / sqrt(n)` that `confidenceInterval` computes. */
  function StandardError(n: nat, sd: real, sqrt: real -> real): (se: real)
    requires 1 <= n && IsSquareRoot(sqrt)
    ensures 0.0 <= sd ==> 0.0 <= se
    ensures sd == 0.0 ==> se == 0.0
  {
    SqrtOfPositive(sqrt, n as real);
    (Z_VALUE * sd) / sqrt(n as real)
  }

  function Ceil(r: real): int {
    -((-r).Floor)
  }

  /**
   * `confidenceInterval`: the bounds `floor(average - se)` and `ceil(average + se)`,
   * converted to `unsigned long`. With a non-negative standard error and bounds that
   * fit an `unsigned long`, the interval contains the average.
   */
  function ConfidenceBounds(average: real, standardError: real): (bounds: (uint64, uint64))
    ensures && 0.0 <= standardError
            && 0.0 <= average - standardError && average + standardError < (TWO_64 - 1) as real
            ==> bounds.0 as real <= average <= bounds.1 as real
  {
    (ToULong((average - standardError).Floor), ToULong(Ceil(average + standardError)))
  }

  /** The confidence bounds of a whole sample, as `average`, `sd` and `confidenceInterval` compute them in turn. */
  function SampleBounds(s: seq<uint64>, sqrt: real -> real): (uint64, uint64)
    requires 2 <= |s| && IsSquareRoot(sqrt)
  {
    ConfidenceBounds(Mean(s), StandardError(|s|, sqrt(Variance(s)), sqrt))
  }

  /** Every sample value within [lo, hi] bounds the sum by n * lo and n * hi. */
  lemma {:induction false} SumWithin(s: seq<uint64>, lo: int, hi: int)
    requires forall i :: 0 <= i < |s| ==> lo <= s[i] as int <= hi
    ensures lo * |s| <= Sum(s) <= hi * |s|
  {
    if s != [] {
      SumWithin(s[..|s| - 1], lo, hi);
    }
  }

  /** The mean lies between the smallest and the largest bound of the sample. */
  lemma MeanWithin(s: seq<uint64>, lo: int, hi: int)
    requires 1 <= |s|
    requires forall i :: 0 <= i < |s| ==> lo <= s[i] as int <= hi
    ensures lo as real <= Mean(s) <= hi as real
  {
    SumWithin(s, lo, hi);
    RealOfProduct(lo, |s|);
    RealOfProduct(hi, |s|);
    Quotient(lo as real, Sum(s) as real, hi as real, |s| as real);
  }

  lemma RealOfProduct(a: int, b: int)
    ensures (a * b) as real == a as real * b as real
  {
  }

  /** a * n <= b <= c * n, n > 0, gives a <= b / n <= c. */
  lemma Quotient(a: real, b: real, c: real, n: real)
    requires 0.0 < n && a * n <= b <= c * n
    ensures a <= b / n <= c
  {
    var q := b / n;
    assert q * n == b;
  }

  lemma {:induction false} SquaredDeviationsNonNegative(s: seq<uint64>, avg: real)
    ensures 0.0 <= SquaredDeviations(s, avg)
  {
    if s != [] {
      SquaredDeviationsNonNegative(s[..|s| - 1], avg);
      var d := s[|s| - 1] as real - avg;
      assert 0.0 <= d * d;
    }
  }

  /** A sample equal to its average everywhere has no deviation. */
  lemma {:induction false} SquaredDeviationsOfConstant(s: seq<uint64>, k: uint64)
    requires forall i :: 0 <= i < |s| ==> s[i] == k
    ensures SquaredDeviations(s, k as real) == 0.0
  {
    if s != [] {
      SquaredDeviationsOfConstant(s[..|s| - 1], k);
    }
  }

  /** The standard error is never negative. */
  lemma StandardErrorNonNegative(s: seq<uint64>, sqrt: real -> real)
    requires 2 <= |s| && IsSquareRoot(sqrt)
    ensures 0.0 <= StandardError(|s|, sqrt(Variance(s)), sqrt)
  {
    SquaredDeviationsNonNegative(s, Mean(s));
    SqrtOfPositive(sqrt, |s| as real);
  }

  // ---------------------------------------------------------------- quartiles

  /** The key `comparer` orders by: it reads an `unsigned int` at the address of an
      `unsigned long`, which on little-endian x86-64 is the low 32 bits. */
  function ComparerKey(v: uint64): int {
    v as int % TWO_32
  }

  /** The key a comparison of the full `unsigned long` values orders by. */
  function ValueKey(v: uint64): int {
    v as int
  }

  /** `(unsigned int)ceil(n / 4)`: the division is already integral, so this is n / 4. */
  function Q1Index(n: nat): (i: nat)
    requires 1 <= n
    ensures 4 * i <= n < 4 * i + 4
    ensures i < n
  {
    n / 4
  }

  /**
   * `(unsigned int)floor(3 * n / 4)` for an `unsigned int` n: the product `3 * n`
   * wraps modulo 2^32. The index is always in bounds; it is 3n/4, and so not below
   * the Q1 index, only when `3 * n` does not wrap.
   */
  function Q3Index(n: nat): (i: nat)
    requires 1 <= n < TWO_32
    ensures i < n
    ensures 3 * n < TWO_32 ==> 4 * i <= 3 * n < 4 * i + 4 && Q1Index(n) <= i
  {
    (3 * n) % TWO_32 / 4
  }

  /** For n = 1431655766, `3 * n` wraps to 2 and the Q3 index falls below the Q1 index. */
  lemma Q3IndexWraps()
    ensures Q3Index(1431655766) == 0 < Q1Index(1431655766)
  {
  }

  /**
   * `interQuartileRange` with `comparer` as the source writes it: the buffer ends up
   * ordered by the low 32 bits only, and Q1 <= Q3 holds only when every sample is
   * below 2^32.
   */
  method InterQuartileRangeAsWritten(n: nat, times: array<uint64>)
    returns (lowBoundTime: uint64, highBoundTime: uint64)
    requires 1 <= n <= times.Length && 3 * n < TWO_32
    modifies times
    ensures SortedBy(times[..n], ComparerKey)
    ensures multiset(times[..n]) == old(multiset(times[..n]))
    ensures times[n..] == old(times[n..])
    ensures lowBoundTime == times[Q1Index(n)] && highBoundTime == times[Q3Index(n)]
    ensures (forall i :: 0 <= i < n ==> old(times[i]) as int < TWO_32) ==> lowBoundTime <= highBoundTime
  {
    SortByKey(times, n, ComparerKey);
    lowBoundTime := times[Q1Index(n)];
    highBoundTime := times[Q3Index(n)];
    if forall i :: 0 <= i < n ==> old(times[i]) as int < TWO_32 {
      forall i | 0 <= i < n ensures times[i] as int < TWO_32 {
        assert times[i] in multiset(old(times[..n]));
      }
      assert ComparerKey(lowBoundTime) <= ComparerKey(highBoundTime);
    }
  }

  /** The sample [2^32, 2^32, 1, 1]: two values whose low 32 bits are 0, two whose are 1. */
  function WrappingSample(): seq<uint64> {
    [TWO_32 as uint64, TWO_32 as uint64, 1, 1]
  }

  /** A permutation of WrappingSample holds each of its two values exactly twice. */
  lemma PermutationOfWrappingSample(t: seq<uint64>)
    requires multiset(t) == multiset(WrappingSample())
    ensures |t| == 4
    ensures forall i :: 0 <= i < 4 ==> t[i] == TWO_32 as uint64 || t[i] == 1
    ensures (if t[0] == 1 then 1 else 0) + (if t[1] == 1 then 1 else 0)
          + (if t[2] == 1 then 1 else 0) + (if t[3] == 1 then 1 else 0) == 2
  {
    var big, one: uint64 := TWO_32 as uint64, 1;
    var sample := multiset{big, big, one, one};
    assert multiset(t) == sample by {
      assert multiset(WrappingSample()) == sample;
    }
    assert |t| == 4 by {
      assert |t| == |multiset(t)|;
    }
    forall i | 0 <= i < 4 ensures t[i] == big || t[i] == one {
      assert t[i] in multiset(t);
    }
    assert multiset(t)[one] == 2;
    CountInFour(t, one);
  }

  /** How often `v` occurs in a sequence of four. */
  lemma CountInFour(t: seq<uint64>, v: uint64)
    requires |t| == 4
    ensures multiset(t)[v] == (if t[0] == v then 1 else 0) + (if t[1] == v then 1 else 0)
                            + (if t[2] == v then 1 else 0) + (if t[3] == v then 1 else 0)
  {
    assert t == [t[0]] + [t[1]] + [t[2]] + [t[3]];
  }

  /**
   * The as-written comparer breaks `assert(Q1 <= Q3)`: whatever order `qsort` picks
   * among equal keys, WrappingSample sorted by the low 32 bits has Q1 = 2^32 and Q3 = 1.
   */
  lemma ComparerKeyBreaksQuartileOrder(t: seq<uint64>)
    requires multiset(t) == multiset(WrappingSample())
    requires SortedBy(t, ComparerKey)
    ensures |t| == 4
    ensures t[Q1Index(4)] == TWO_32 as uint64 && t[Q3Index(4)] == 1
    ensures t[Q1Index(4)] > t[Q3Index(4)]
  {
    PermutationOfWrappingSample(t);
    var big, one: uint64 := TWO_32 as uint64, 1;
    assert ComparerKey(big) == 0 && ComparerKey(one) == 1;
    assert ComparerKey(t[0]) <= ComparerKey(t[1]) <= ComparerKey(t[2]) <= ComparerKey(t[3]);
  }

  /**
   * On samples below 2^32 the two comparers agree: being sorted by the low 32 bits is
   * being sorted by value, so the corrected sort changes nothing there.
   */
  lemma ComparerKeyAgreesBelow2To32(t: seq<uint64>)
    requires forall i :: 0 <= i < |t| ==> t[i] as int < TWO_32
    ensures SortedBy(t, ComparerKey) <==> SortedBy(t, ValueKey)
  {
    assert forall i :: 0 <= i < |t| ==> ComparerKey(t[i]) == ValueKey(t[i]);
  }

  /** `interQuartileRange` with a comparer that orders the full values. */
  method InterQuartileRange(n: nat, times: array<uint64>)
    returns (lowBoundTime: uint64, highBoundTime: uint64)
    requires 1 <= n <= times.Length && 3 * n < TWO_32
    modifies times
    ensures SortedBy(times[..n], ValueKey)
    ensures multiset(times[..n]) == old(multiset(times[..n]))
    ensures times[n..] == old(times[n..])
    ensures lowBoundTime == times[Q1Index(n)] && highBoundTime == times[Q3Index(n)]
    ensures lowBoundTime <= highBoundTime
  {
    SortByKey(times, n, ValueKey);
    lowBoundTime := times[Q1Index(n)];
    highBoundTime := times[Q3Index(n)];
    assert lowBoundTime <= highBoundTime;
  }

  // ---------------------------------------------------------------- the summary record

  /**
   * The record `buildFromMeasurement` fills from the sample `s`, given the buffer
   * `sorted` that its quartile computation leaves behind.
   */
  function Summary(s: seq<uint64>, sorted: seq<uint64>, sqrt: real -> real): ConfidenceInterval
    requires 2 <= |s| == |sorted| < TWO_32 && IsSquareRoot(sqrt)
  {
    var bounds := SampleBounds(s, sqrt);
    ConfidenceInterval(Mean(s), sqrt(Variance(s)), bounds.0, bounds.1,
                       sorted[Q1Index(|s|)], sorted[Q3Index(|s|)])
  }

  /**
   * `buildFromMeasurement`: fills all six fields from `Times[0..NbTimes)`, and as a
   * side effect leaves that part of the caller's buffer sorted (a permutation of it).
   */
  method BuildFromMeasurement(times: array<uint64>, nbTimes: nat, sqrt: real -> real)
    returns (interval: ConfidenceInterval)
    requires 2 <= nbTimes <= times.Length && 3 * nbTimes < TWO_32 && IsSquareRoot(sqrt)
    modifies times
    ensures SortedBy(times[..nbTimes], ValueKey)
    ensures multiset(times[..nbTimes]) == old(multiset(times[..nbTimes]))
    ensures times[nbTimes..] == old(times[nbTimes..])
    ensures interval == Summary(old(times[..nbTimes]), times[..nbTimes], sqrt)
    ensures interval.q1 <= interval.q3
  {
    ghost var sample := times[..nbTimes];
    var average := Average(nbTimes, times);
    var deviation := Sd(nbTimes, average, times, sqrt);
    var bounds := ConfidenceBounds(average, StandardError(nbTimes, deviation, sqrt));
    var q1, q3 := InterQuartileRange(nbTimes, times);
    interval := ConfidenceInterval(average, deviation, bounds.0, bounds.1, q1, q3);
  }

  /**
   * A constant sample (every value k) summarizes to average k, standard deviation 0,
   * confidence interval [k, k] and Q1 = Q3 = k.
   */
  lemma ConstantSampleSummary(s: seq<uint64>, sorted: seq<uint64>, k: uint64, sqrt: real -> real)
    requires 2 <= |s| < TWO_32 && IsSquareRoot(sqrt)
    requires forall i :: 0 <= i < |s| ==> s[i] == k
    requires multiset(sorted) == multiset(s)
    ensures |sorted| == |s|
    ensures Summary(s, sorted, sqrt) == ConfidenceInterval(k as real, 0.0, k, k, k, k)
  {
    assert |sorted| == |multiset(sorted)| == |s|;
    MeanWithin(s, k as int, k as int);
    SquaredDeviationsOfConstant(s, k);
    SqrtOfZero(sqrt);
    SqrtOfPositive(sqrt, |s| as real);
    assert StandardError(|s|, sqrt(Variance(s)), sqrt) == 0.0;
    forall i | 0 <= i < |sorted| ensures sorted[i] == k {
      assert sorted[i] in multiset(s);
    }
  }

  // ---------------------------------------------------------------- comparisons

  ghost predicate WellFormed(i: ConfidenceInterval) {
    i.lowerBound <= i.upperBound
  }

  ghost predicate ContainsAverage(i: ConfidenceInterval) {
    i.lowerBound as real <= i.average <= i.upperBound as real
  }

  /**
   * `overlap`: the loose test of ConfInterval.c. For well-formed intervals it is false
   * only when all four bounds coincide.
   */
  predicate Overlap(lhs: ConfidenceInterval, rhs: ConfidenceInterval)
    ensures WellFormed(lhs) && WellFormed(rhs) ==>
      (!Overlap(lhs, rhs) <==> lhs.lowerBound == lhs.upperBound == rhs.lowerBound == rhs.upperBound)
  {
    lhs.lowerBound < rhs.upperBound || rhs.lowerBound < lhs.upperBound
  }

  /**
   * `overlapSignificantly`: either average lies inside the other's confidence interval.
   * For intervals that contain their own averages, it implies the two intervals meet.
   */
  predicate OverlapSignificantly(lhs: ConfidenceInterval, rhs: ConfidenceInterval)
    ensures ContainsAverage(lhs) && ContainsAverage(rhs) && OverlapSignificantly(lhs, rhs) ==>
      lhs.lowerBound <= rhs.upperBound && rhs.lowerBound <= lhs.upperBound
  {
    || (lhs.average >= rhs.lowerBound as real && lhs.average <= rhs.upperBound as real)
    || (rhs.average >= lhs.lowerBound as real && rhs.average <= lhs.upperBound as real)
  }

  lemma OverlapSymmetric(a: ConfidenceInterval, b: ConfidenceInterval)
    ensures Overlap(a, b) == Overlap(b, a)
  {
  }

  lemma OverlapSignificantlySymmetric(a: ConfidenceInterval, b: ConfidenceInterval)
    ensures OverlapSignificantly(a, b) == OverlapSignificantly(b, a)
  {
  }

  /** An interval that contains its own average overlaps itself significantly. */
  lemma OverlapSignificantlyReflexive(a: ConfidenceInterval)
    requires ContainsAverage(a)
    ensures OverlapSignificantly(a, a)
  {
  }

  /**
   * A summary built from a sample overlaps itself significantly, as long as its
   * confidence bounds fit an `unsigned long` without wrapping.
   */
  lemma SummaryOverlapsItself(s: seq<uint64>, sorted: seq<uint64>, sqrt: real -> real)
    requires 2 <= |s| == |sorted| < TWO_32 && IsSquareRoot(sqrt)
    requires StandardError(|s|, sqrt(Variance(s)), sqrt) <= Mean(s)
    requires Mean(s) + StandardError(|s|, sqrt(Variance(s)), sqrt) < (TWO_64 - 1) as real
    ensures OverlapSignificantly(Summary(s, sorted, sqrt), Summary(s, sorted, sqrt))
  {
    StandardErrorNonNegative(s, sqrt);
  }
}
