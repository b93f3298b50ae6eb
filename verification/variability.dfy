/** The catalog service's variable-star analysis: the minimum-observation
    guard, the basic light-curve statistics, the frequency grid and the
    choice of the strongest periodogram sample, the classifier, and the
    phase folding behind the phase-folded scatter.

    Doubles are reals; where the code can produce an infinity or NaN the
    value is a `Num`. The Lomb-Scargle powers (sines, cosines and an
    arctangent), `Math.sqrt` and the higher moments are computed by code
    outside this model and arrive as parameters. */
module Variability {
  import opened Wrappers
  import opened JavaText
  import opened AstroCalc
  import opened Numerics

  /** Fewer observations than this are not analysed. */
  const MinObservations: nat := 10
  const MaxPeriodDays: real := 1000.0
  const MinPeriodHours: real := 0.1
  const FrequencySamples: nat := 1000
  const PhaseBins: nat := 20

  datatype VariabilityType =
    | Constant
    | RrLyrae
    | Cepheid
    | LongPeriodVariable
    | MicroVariable
    | Irregular
    | Periodic
    | EclipsingBinary
    | Unknown

  datatype VariabilityResult = VariabilityResult(
    isVariable: bool, period: Num, periodPower: real, amplitude: real, variableType: VariabilityType,
    meanMagnitude: real, variabilityIndex: Num, additionalMetrics: map<string, Num>)

  /** The answer for a light curve too short to analyse: not variable,
      constant, every number zero and no metrics. */
  const Insufficient := VariabilityResult(false, Finite(0.0), 0.0, 0.0, Constant, 0.0, Finite(0.0), map[])

  // ---------------------------------------------------------------------
  // Basic statistics

  function Sum(xs: seq<real>): real {
    if |xs| == 0 then 0.0 else xs[0] + Sum(xs[1..])
  }

  function SumSquares(xs: seq<real>): real {
    if |xs| == 0 then 0.0 else xs[0] * xs[0] + SumSquares(xs[1..])
  }

  /** The sum of squared distances from `c`. */
  function SquaredDeviations(xs: seq<real>, c: real): real {
    if |xs| == 0 then 0.0 else (xs[0] - c) * (xs[0] - c) + SquaredDeviations(xs[1..], c)
  }

  lemma SquareSign(x: real)
    ensures x * x >= 0.0
    ensures x == 0.0 ==> x * x == 0.0
  {
    if x < 0.0 {
      PositiveProduct(-x, -x);
      assert x * x == (-x) * (-x);
    } else if x > 0.0 {
      PositiveProduct(x, x);
    }
  }

  lemma {:induction false} DeviationsNonNegative(xs: seq<real>, c: real)
    ensures SquaredDeviations(xs, c) >= 0.0
  {
    if |xs| > 0 {
      SquareSign(xs[0] - c);
      DeviationsNonNegative(xs[1..], c);
    }
  }

  /** A sum of squares is never negative, and is zero when every term is. */
  lemma {:induction false} SumSquaresSign(xs: seq<real>)
    ensures SumSquares(xs) >= 0.0
    ensures (forall i :: 0 <= i < |xs| ==> xs[i] == 0.0) ==> SumSquares(xs) == 0.0
  {
    if |xs| > 0 {
      SquareSign(xs[0]);
      SumSquaresSign(xs[1..]);
      assert forall i :: 1 <= i < |xs| ==> xs[i] == xs[1..][i - 1];
    }
  }

  /** Expanding the squares: the sum of squared deviations from `c` is the
      sum of squares less `2c` times the sum plus `n c^2`. */
  lemma {:induction false} DeviationExpansion(xs: seq<real>, n: real, c: real)
    requires n == |xs| as real
    ensures SquaredDeviations(xs, c) == SumSquares(xs) - 2.0 * c * Sum(xs) + n * c * c
  {
    if |xs| > 0 {
      DeviationExpansion(xs[1..], n - 1.0, c);
      assert (n - 1.0) * c * c + c * c == n * c * c;
    }
  }

  lemma DivideDifference(a: real, b: real, n: real)
    requires n > 0.0
    ensures (a - n * b) / n == a / n - b
  {
  }

  /** The algebra of the variance, on named quantities. */
  lemma VarianceAlgebra(sd: real, ss: real, s: real, n: real, mean: real)
    requires n > 0.0 && mean == s / n && sd == ss - 2.0 * mean * s + n * mean * mean && sd >= 0.0
    ensures ss / n - mean * mean == sd / n
    ensures sd / n >= 0.0
  {
    assert s == n * mean;
    var m2 := mean * mean;
    assert mean * s == n * m2;
    assert sd == ss - n * m2;
    DivideDifference(ss, m2, n);
    NonNegativeQuotient(sd, n);
  }

  /** The variance the code computes, the mean square less the squared
      mean, is the mean squared deviation from the mean, so it is never
      negative. */
  lemma VarianceIsMeanSquaredDeviation(xs: seq<real>, mean: real)
    requires |xs| > 0 && mean == Sum(xs) / |xs| as real
    ensures SumSquares(xs) / |xs| as real - mean * mean == SquaredDeviations(xs, mean) / |xs| as real
    ensures SquaredDeviations(xs, mean) / |xs| as real >= 0.0
  {
    var n := |xs| as real;
    DeviationExpansion(xs, n, mean);
    DeviationsNonNegative(xs, mean);
    VarianceAlgebra(SquaredDeviations(xs, mean), SumSquares(xs), Sum(xs), n, mean);
  }

  /** The smallest and largest of a non-empty sequence. */
  function Least(xs: seq<real>): (m: real)
    requires |xs| > 0
    ensures m in xs && forall i :: 0 <= i < |xs| ==> m <= xs[i]
  {
    if |xs| == 1 then xs[0] else Min(xs[0], Least(xs[1..]))
  }

  function Greatest(xs: seq<real>): (m: real)
    requires |xs| > 0
    ensures m in xs && forall i :: 0 <= i < |xs| ==> xs[i] <= m
  {
    if |xs| == 1 then xs[0] else Max(xs[0], Greatest(xs[1..]))
  }

  /** A sum of values between `lo` and `hi` lies between `n lo` and `n hi`. */
  lemma {:induction false} SumBetween(xs: seq<real>, lo: real, hi: real)
    requires forall i :: 0 <= i < |xs| ==> lo <= xs[i] <= hi
    ensures |xs| as real * lo <= Sum(xs) <= |xs| as real * hi
  {
    if |xs| > 0 {
      SumBetween(xs[1..], lo, hi);
      assert |xs| as real * lo == (|xs| - 1) as real * lo + lo;
      assert |xs| as real * hi == (|xs| - 1) as real * hi + hi;
    }
  }

  /** Dividing the bounds of a sum by the count bounds the mean. */
  lemma MeanBetween(sum: real, n: real, lo: real, hi: real)
    requires n > 0.0 && n * lo <= sum <= n * hi
    ensures lo <= sum / n <= hi
  {
  }

  lemma MeanFacts(xs: seq<real>, sum: real, lo: real, hi: real)
    requires |xs| > 0 && sum == Sum(xs)
    requires forall i :: 0 <= i < |xs| ==> lo <= xs[i] <= hi
    ensures lo <= sum / |xs| as real <= hi
  {
    var n := |xs| as real;
    assert n * lo <= sum <= n * hi by {
      SumBetween(xs, lo, hi);
    }
    MeanBetween(sum, n, lo, hi);
  }

  /** The mean of a non-empty sequence, which lies within its range. */
  function Mean(xs: seq<real>): (m: real)
    requires |xs| > 0
    ensures Least(xs) <= m <= Greatest(xs)
  {
    MeanFacts(xs, Sum(xs), Least(xs), Greatest(xs));
    Sum(xs) / |xs| as real
  }

  /** `rms / avgError`, where `avgError` is the root of the mean squared
      error: finite and non-negative once some error is not zero. */
  function VariabilityIndex(rms: real, errors: seq<real>, sqrt: real -> real): (v: Num)
    requires |errors| > 0 && rms >= 0.0 && SqrtLike(sqrt)
    ensures SumSquares(errors) > 0.0 ==> v.Finite? && v.v >= 0.0
    ensures (forall i :: 0 <= i < |errors| ==> errors[i] == 0.0) ==> v == PosInfinity || v == NaN
  {
    SumSquaresSign(errors);
    Quotient(rms, sqrt(SumSquares(errors) / |errors| as real))
  }

  datatype Statistics = Statistics(meanMagnitude: real, rms: real, amplitude: real, variabilityIndex: Num)

  /** `calculateVariabilityStatistics`: the mean, the root of the variance,
      the peak-to-peak amplitude, and the rms over the root mean square
      error. With every error zero the index divides by zero. */
  function CalculateStatistics(mags: seq<real>, errors: seq<real>, sqrt: real -> real): (s: Statistics)
    requires |mags| == |errors| > 0 && SqrtLike(sqrt)
    ensures s.meanMagnitude == Sum(mags) / |mags| as real
    ensures Least(mags) <= s.meanMagnitude <= Greatest(mags)
    ensures s.amplitude == Greatest(mags) - Least(mags) && s.amplitude >= 0.0
    ensures s.rms == sqrt(SquaredDeviations(mags, s.meanMagnitude) / |mags| as real) && s.rms >= 0.0
    ensures SumSquares(errors) > 0.0 ==> s.variabilityIndex.Finite? && s.variabilityIndex.v >= 0.0
    ensures (forall i :: 0 <= i < |errors| ==> errors[i] == 0.0) ==>
              s.variabilityIndex == PosInfinity || s.variabilityIndex == NaN
  {
    var n := |mags| as real;
    var mean := Mean(mags);
    VarianceIsMeanSquaredDeviation(mags, mean);
    var rms := sqrt(SumSquares(mags) / n - mean * mean);
    Statistics(mean, rms, Greatest(mags) - Least(mags), VariabilityIndex(rms, errors, sqrt))
  }

  // ---------------------------------------------------------------------
  // Periodogram

  /** One over six minutes, in cycles per day: the highest frequency
      searched. */
  const MaxFrequency: real := 1.0 / (MinPeriodHours / 24.0)

  /** One over the time span, or over 1000 days when the span is longer:
      the lowest frequency searched. A span of zero divides by zero. */
  function MinFrequency(timeSpan: real): (f: Num)
    ensures timeSpan > 0.0 ==> f.Finite? && f.v > 0.0
    ensures timeSpan >= MaxPeriodDays ==> f == Finite(1.0 / MaxPeriodDays)
    ensures timeSpan == 0.0 ==> f == PosInfinity
  {
    Quotient(1.0, Min(MaxPeriodDays, timeSpan))
  }

  /** `a < b` scaled by a positive factor. */
  lemma ScaleOrder(a: real, b: real, d: real)
    requires a < b && d > 0.0
    ensures a * d < b * d
  {
    PositiveProduct(b - a, d);
    assert (b - a) * d == b * d - a * d;
  }

  /** The frequency samples: 1000 evenly spaced values from the lowest
      frequency to the highest, increasing when the lowest is below the
      highest. */
  function FrequencyGrid(minFreq: real): (fs: seq<real>)
    ensures |fs| == FrequencySamples
    ensures fs[0] == minFreq && fs[FrequencySamples - 1] == MaxFrequency
    ensures minFreq < MaxFrequency ==> forall i, j :: 0 <= i < j < |fs| ==> fs[i] < fs[j]
  {
    var delta := (MaxFrequency - minFreq) / (FrequencySamples - 1) as real;
    var fs := seq(FrequencySamples, f => minFreq + f as real * delta);
    assert fs[FrequencySamples - 1] == MaxFrequency;
    assert minFreq < MaxFrequency ==> forall i, j :: 0 <= i < j < |fs| ==> fs[i] < fs[j] by {
      if minFreq < MaxFrequency {
        forall i, j | 0 <= i < j < |fs|
          ensures fs[i] < fs[j]
        {
          ScaleOrder(i as real, j as real, delta);
        }
      }
    }
    fs
  }

  /** The strongest sample of a periodogram. */
  datatype PeakSample = PeakSample(frequency: real, power: real)

  /** The scan over the periodogram: the best starts at power 0 and
      frequency 0 and moves only to a strictly larger power, so it ends at
      the first sample of the largest power when that power is positive. */
  function BestPeak(frequencies: seq<real>, powers: seq<real>): (p: PeakSample)
    requires |frequencies| == |powers|
    ensures p.power >= 0.0
    ensures forall i :: 0 <= i < |powers| ==> powers[i] <= p.power
    ensures p.power == 0.0 ==> p.frequency == 0.0
    ensures p.power > 0.0 ==> exists i :: 0 <= i < |powers| && FirstPeakAt(frequencies, powers, i, p)
    decreases |powers|
  {
    if |powers| == 0 then PeakSample(0.0, 0.0)
    else
      var n := |powers| - 1;
      var prev := BestPeak(frequencies[..n], powers[..n]);
      if powers[n] > prev.power then
        assert FirstPeakAt(frequencies, powers, n, PeakSample(frequencies[n], powers[n]));
        PeakSample(frequencies[n], powers[n])
      else
        assert prev.power > 0.0 ==> exists i :: 0 <= i < |powers| && FirstPeakAt(frequencies, powers, i, prev) by {
          if prev.power > 0.0 {
            var i :| 0 <= i < n && FirstPeakAt(frequencies[..n], powers[..n], i, prev);
            assert FirstPeakAt(frequencies, powers, i, prev);
          }
        }
        prev
  }

  /** Sample `i` holds the peak and no earlier sample reaches its power. */
  ghost predicate FirstPeakAt(frequencies: seq<real>, powers: seq<real>, i: int, p: PeakSample)
    requires |frequencies| == |powers|
  {
    && 0 <= i < |powers|
    && powers[i] == p.power && frequencies[i] == p.frequency
    && forall j :: 0 <= j < i ==> powers[j] < p.power
  }

  // ---------------------------------------------------------------------
  // Classification

  /** The condition each class's branch tests, for a light curve whose
      index is not below 1.5. */
  predicate Criterion(t: VariabilityType, period: Num, amplitude: real, power: real) {
    match t
    case RrLyrae => Lt(period, 1.0) && amplitude > 0.3
    case Cepheid => Ge(period, 1.0) && Lt(period, 50.0) && amplitude > 0.5
    case LongPeriodVariable => Gt(period, 80.0) && Lt(period, 400.0)
    case MicroVariable => amplitude < 0.1
    case Irregular => power < 5.0
    case Periodic => true
    case _ => false
  }

  /** The order in which the classes are tried. */
  const Precedence: seq<VariabilityType> := [RrLyrae, Cepheid, LongPeriodVariable, MicroVariable, Irregular, Periodic]

  /** The first class in `order` whose condition holds. */
  function FirstMatch(order: seq<VariabilityType>, period: Num, amplitude: real, power: real): (r: Option<VariabilityType>)
    ensures r.Some? ==> r.value in order && Criterion(r.value, period, amplitude, power)
    ensures r.None? <==> forall k :: 0 <= k < |order| ==> !Criterion(order[k], period, amplitude, power)
  {
    if |order| == 0 then None
    else if Criterion(order[0], period, amplitude, power) then Some(order[0])
    else
      var r := FirstMatch(order[1..], period, amplitude, power);
      assert forall k :: 1 <= k < |order| ==> order[k] == order[1..][k - 1];
      r
  }

  /** Walking the precedence list one class at a time. */
  lemma PrecedenceWalk(period: Num, amplitude: real, power: real)
    ensures var m := FirstMatch(Precedence, period, amplitude, power);
            && (Criterion(RrLyrae, period, amplitude, power) ==> m == Some(RrLyrae))
            && (!Criterion(RrLyrae, period, amplitude, power) ==>
                  m == FirstMatch([Cepheid, LongPeriodVariable, MicroVariable, Irregular, Periodic], period, amplitude, power))
  {
    assert Precedence[1..] == [Cepheid, LongPeriodVariable, MicroVariable, Irregular, Periodic];
  }

  lemma TailWalk(period: Num, amplitude: real, power: real)
    ensures var m := FirstMatch([Cepheid, LongPeriodVariable, MicroVariable, Irregular, Periodic], period, amplitude, power);
            && (Criterion(Cepheid, period, amplitude, power) ==> m == Some(Cepheid))
            && (!Criterion(Cepheid, period, amplitude, power) && Criterion(LongPeriodVariable, period, amplitude, power) ==>
                  m == Some(LongPeriodVariable))
            && (!Criterion(Cepheid, period, amplitude, power) && !Criterion(LongPeriodVariable, period, amplitude, power) ==>
                  m == FirstMatch([MicroVariable, Irregular, Periodic], period, amplitude, power))
  {
    assert [Cepheid, LongPeriodVariable, MicroVariable, Irregular, Periodic][1..] == [LongPeriodVariable, MicroVariable, Irregular, Periodic];
    assert [LongPeriodVariable, MicroVariable, Irregular, Periodic][1..] == [MicroVariable, Irregular, Periodic];
  }

  lemma LastWalk(period: Num, amplitude: real, power: real)
    ensures var m := FirstMatch([MicroVariable, Irregular, Periodic], period, amplitude, power);
            && (Criterion(MicroVariable, period, amplitude, power) ==> m == Some(MicroVariable))
            && (!Criterion(MicroVariable, period, amplitude, power) && Criterion(Irregular, period, amplitude, power) ==>
                  m == Some(Irregular))
            && (!Criterion(MicroVariable, period, amplitude, power) && !Criterion(Irregular, period, amplitude, power) ==>
                  m == Some(Periodic))
  {
    assert [MicroVariable, Irregular, Periodic][1..] == [Irregular, Periodic];
    assert [Irregular, Periodic][1..] == [Periodic];
    assert FirstMatch([Periodic], period, amplitude, power) == Some(Periodic);
  }

  /** `classifyVariableType`: an index below 1.5 is constant; otherwise
      the first class of the precedence list whose condition holds, with
      periodic as the fallback. The two remaining classes of the enum are
      never produced. */
  function ClassifyVariableType(stats: Statistics, period: Num, power: real): (t: VariabilityType)
    ensures t == Constant <==> Lt(stats.variabilityIndex, 1.5)
    ensures t != Constant ==> Some(t) == FirstMatch(Precedence, period, stats.amplitude, power)
    ensures t != EclipsingBinary && t != Unknown
  {
    var amplitude := stats.amplitude;
    PrecedenceWalk(period, amplitude, power);
    TailWalk(period, amplitude, power);
    LastWalk(period, amplitude, power);
    if Lt(stats.variabilityIndex, 1.5) then Constant
    else if Lt(period, 1.0) && amplitude > 0.3 then RrLyrae
    else if Ge(period, 1.0) && Lt(period, 50.0) && amplitude > 0.5 then Cepheid
    else if Gt(period, 80.0) && Lt(period, 400.0) then LongPeriodVariable
    else if amplitude < 0.1 then MicroVariable
    else if power < 5.0 then Irregular
    else Periodic
  }

  /** The variability flag: an index above 1.5 and a peak power above 10. */
  predicate IsVariable(stats: Statistics, power: real) {
    Gt(stats.variabilityIndex, 1.5) && power > 10.0
  }

  /** A light curve flagged variable is never classed constant. */
  lemma VariableIsNeverConstant(stats: Statistics, period: Num, power: real)
    requires IsVariable(stats, power)
    ensures ClassifyVariableType(stats, period, power) != Constant
  {
  }

  // ---------------------------------------------------------------------
  // Phase folding

  /** `((t - t0) % period) / period` for a positive period. Java's
      remainder truncates the quotient toward zero, so the phase is the
      quotient less its truncation: it keeps the sign of the offset. An
      infinite period leaves the offset unchanged and divides it to zero. */
  function PhaseAsWritten(offset: real, period: Num): (p: real)
    requires Gt(period, 0.0)
    ensures -1.0 < p < 1.0
    ensures offset >= 0.0 ==> 0.0 <= p
    ensures offset < 0.0 ==> p <= 0.0
  {
    if period.Finite? then
      var q := offset / period.v;
      assert offset >= 0.0 <==> q >= 0.0;
      q - Trunc(q) as real
    else 0.0
  }

  /** The phase folded into [0, 1): the quotient less its floor. */
  function Phase(offset: real, period: Num): (p: real)
    requires Gt(period, 0.0)
    ensures 0.0 <= p < 1.0
    ensures offset >= 0.0 ==> p == PhaseAsWritten(offset, period)
  {
    if period.Finite? then
      var q := offset / period.v;
      assert offset >= 0.0 ==> q >= 0.0;
      q - q.Floor as real
    else 0.0
  }

  /** `Math.min((int) (phase * nBins), nBins - 1)`: the cast truncates
      toward zero. A phase in [0, 1) lands in one of the 20 bins; a phase
      of -0.05 or below gives a negative index. */
  function PhaseBin(phase: real): (b: int)
    requires -1.0 < phase < 1.0
    ensures b <= PhaseBins - 1
    ensures 0.0 <= phase ==> 0 <= b
    ensures b < 0 <==> phase <= -1.0 / PhaseBins as real
  {
    var t := Trunc(phase * PhaseBins as real);
    if t < PhaseBins - 1 then t else PhaseBins - 1
  }

  /** The number of observations in bin `b`. */
  function CountIn(bins: seq<int>, b: int): nat {
    if |bins| == 0 then 0 else (if bins[0] == b then 1 else 0) + CountIn(bins[1..], b)
  }

  /** The sum of the magnitudes in bin `b`. */
  function TotalIn(bins: seq<int>, mags: seq<real>, b: int): real
    requires |bins| == |mags|
  {
    if |bins| == 0 then 0.0 else (if bins[0] == b then mags[0] else 0.0) + TotalIn(bins[1..], mags[1..], b)
  }

  /** The mean magnitude of bin `b`, left at 0 when the bin is empty. */
  function BinMean(bins: seq<int>, mags: seq<real>, b: int): real
    requires |bins| == |mags|
  {
    if CountIn(bins, b) > 0 then TotalIn(bins, mags, b) / CountIn(bins, b) as real else 0.0
  }

  /** Every observation lies in a bin that holds at least itself. */
  lemma {:induction false} OwnBinOccupied(bins: seq<int>, k: int)
    requires 0 <= k < |bins|
    ensures CountIn(bins, bins[k]) > 0
  {
    if k > 0 {
      OwnBinOccupied(bins[1..], k - 1);
      assert bins[1..][k - 1] == bins[k];
    }
  }

  /** The squared distances of observations `k..` from their bin means,
      over the observations whose bin is occupied. */
  function ScatterFrom(bins: seq<int>, mags: seq<real>, k: nat): real
    requires |bins| == |mags| && k <= |bins|
    decreases |bins| - k
  {
    if k == |bins| then 0.0
    else
      var d := mags[k] - BinMean(bins, mags, bins[k]);
      (if CountIn(bins, bins[k]) > 0 then d * d else 0.0) + ScatterFrom(bins, mags, k + 1)
  }

  /** The number of observations `k..` whose bin is occupied. */
  function CountedFrom(bins: seq<int>, k: nat): nat
    requires k <= |bins|
    decreases |bins| - k
  {
    if k == |bins| then 0 else (if CountIn(bins, bins[k]) > 0 then 1 else 0) + CountedFrom(bins, k + 1)
  }

  /** The scatter's count is every observation: no bin an observation
      falls in is empty. */
  lemma {:induction false} EveryObservationCounted(bins: seq<int>, k: nat)
    requires k <= |bins|
    ensures CountedFrom(bins, k) == |bins| - k
    decreases |bins| - k
  {
    if k < |bins| {
      OwnBinOccupied(bins, k);
      EveryObservationCounted(bins, k + 1);
    }
  }

  lemma {:induction false} ScatterNonNegative(bins: seq<int>, mags: seq<real>, k: nat)
    requires |bins| == |mags| && k <= |bins|
    ensures ScatterFrom(bins, mags, k) >= 0.0
    decreases |bins| - k
  {
    if k < |bins| {
      SquareSign(mags[k] - BinMean(bins, mags, bins[k]));
      ScatterNonNegative(bins, mags, k + 1);
    }
  }

  /** `calculatePhaseFoldedScatter` once every bin index is in range: the
      root mean squared distance of each magnitude from its bin's mean. */
  function PhaseFoldedScatter(bins: seq<int>, mags: seq<real>, sqrt: real -> real): (r: real)
    requires |bins| == |mags| && SqrtLike(sqrt)
    ensures r == sqrt(ScatterFrom(bins, mags, 0) / Max(|bins| as real, 1.0))
    ensures r >= 0.0
  {
    EveryObservationCounted(bins, 0);
    ScatterNonNegative(bins, mags, 0);
    sqrt(ScatterFrom(bins, mags, 0) / Max(CountedFrom(bins, 0) as real, 1.0))
  }

  /** The first bin index below zero, where filling the bins throws. */
  function FirstNegative(bins: seq<int>): (r: Option<int>)
    ensures r.None? <==> forall k :: 0 <= k < |bins| ==> bins[k] >= 0
    ensures r.Some? ==> r.value < 0 && exists k :: 0 <= k < |bins| && bins[k] == r.value
  {
    if |bins| == 0 then None
    else if bins[0] < 0 then Some(bins[0])
    else
      var r := FirstNegative(bins[1..]);
      assert forall k :: 1 <= k < |bins| ==> bins[k] == bins[1..][k - 1];
      r
  }

  /** The message of the `ArrayIndexOutOfBoundsException` for `index` in an
      array of `length`. */
  function OutOfBounds(index: int, length: nat): string {
    "Index " + Signed(index) + " out of bounds for length " + Decimal(length)
  }

  // ---------------------------------------------------------------------
  // Additional metrics

  /** Skewness, excess kurtosis and the Stetson J index, computed by code
      outside this model. */
  datatype Moments = Moments(skewness: Num, kurtosis: Num, stetsonJ: Num)

  /** The metrics map: the phase-folded scatter when there is one, the
      fixed autocorrelation timescale of one day, and the moments. */
  function Metrics(scatter: Option<real>, moments: Moments): (m: map<string, Num>)
    ensures "phase_folded_scatter" in m <==> scatter.Some?
    ensures scatter.Some? ==> m["phase_folded_scatter"] == Finite(scatter.value)
    ensures "autocorrelation_timescale" in m && m["autocorrelation_timescale"] == Finite(1.0)
    ensures "skewness" in m && "kurtosis" in m && "stetson_j" in m
  {
    var base := map["autocorrelation_timescale" := Finite(1.0), "skewness" := moments.skewness,
                     "kurtosis" := moments.kurtosis, "stetson_j" := moments.stetsonJ];
    if scatter.Some? then base["phase_folded_scatter" := Finite(scatter.value)] else base
  }

  /** The bins of the phases each observation's offset from the first
      observation folds to, with the given phase function. */
  function BinsAsWritten(times: seq<real>, period: Num): (bins: seq<int>)
    requires |times| > 0 && Gt(period, 0.0)
    ensures |bins| == |times|
    ensures forall k :: 0 <= k < |bins| ==> bins[k] == PhaseBin(PhaseAsWritten(times[k] - times[0], period))
  {
    seq(|times|, k requires 0 <= k < |times| => PhaseBin(PhaseAsWritten(times[k] - times[0], period)))
  }

  function Bins(times: seq<real>, period: Num): (bins: seq<int>)
    requires |times| > 0 && Gt(period, 0.0)
    ensures |bins| == |times|
    ensures forall k :: 0 <= k < |bins| ==> 0 <= bins[k] < PhaseBins
    ensures forall k :: 0 <= k < |bins| ==> bins[k] == PhaseBin(Phase(times[k] - times[0], period))
  {
    seq(|times|, k requires 0 <= k < |times| => PhaseBin(Phase(times[k] - times[0], period)))
  }

  /** `calculateAdditionalMetrics` as written: with a positive period the
      offsets fold with Java's remainder, and an observation before the
      first one can fold to a negative bin, where the array store throws. */
  function AdditionalMetricsAsWritten(times: seq<real>, mags: seq<real>, period: Num, moments: Moments,
                                      sqrt: real -> real): (r: Result<map<string, Num>>)
    requires |times| == |mags| > 0 && SqrtLike(sqrt)
    ensures r.Failure? <==> Gt(period, 0.0) && exists k :: 0 <= k < |times| && BinsAsWritten(times, period)[k] < 0
    ensures r.Success? ==> ("phase_folded_scatter" in r.value <==> Gt(period, 0.0))
  {
    if Gt(period, 0.0) then
      var bins := BinsAsWritten(times, period);
      match FirstNegative(bins)
      case Some(b) => Failure(OutOfBounds(b, PhaseBins))
      case None => Success(Metrics(Some(PhaseFoldedScatter(bins, mags, sqrt)), moments))
    else Success(Metrics(None, moments))
  }

  /** `calculateAdditionalMetrics` with the phases folded into [0, 1), so
      that every bin index is in range. */
  function AdditionalMetrics(times: seq<real>, mags: seq<real>, period: Num, moments: Moments,
                             sqrt: real -> real): (m: map<string, Num>)
    requires |times| == |mags| > 0 && SqrtLike(sqrt)
    ensures "phase_folded_scatter" in m <==> Gt(period, 0.0)
    ensures Gt(period, 0.0) ==>
              m["phase_folded_scatter"] == Finite(PhaseFoldedScatter(Bins(times, period), mags, sqrt))
    ensures "autocorrelation_timescale" in m && m["autocorrelation_timescale"] == Finite(1.0)
  {
    if Gt(period, 0.0) then Metrics(Some(PhaseFoldedScatter(Bins(times, period), mags, sqrt)), moments)
    else Metrics(None, moments)
  }

  /** When no observation precedes the first, both foldings agree. */
  lemma MetricsAgreeOnSortedTimes(times: seq<real>, mags: seq<real>, period: Num, moments: Moments,
                                  sqrt: real -> real)
    requires |times| == |mags| > 0 && SqrtLike(sqrt)
    requires forall k :: 0 <= k < |times| ==> times[0] <= times[k]
    ensures AdditionalMetricsAsWritten(times, mags, period, moments, sqrt)
            == Success(AdditionalMetrics(times, mags, period, moments, sqrt))
  {
    if Gt(period, 0.0) {
      assert BinsAsWritten(times, period) == Bins(times, period);
    }
  }

  lemma EarlierObservationBins()
    ensures BinsAsWritten([1.0, 0.0], Finite(2.0)) == [0, -10]
  {
    assert PhaseAsWritten(0.0, Finite(2.0)) == 0.0;
    assert PhaseAsWritten(-1.0, Finite(2.0)) == -0.5;
  }

  /** Two observations, the second a time unit before the first, with a
      period of two: the second folds to phase -0.5 and bin -10. */
  lemma EarlierObservationThrows(moments: Moments, sqrt: real -> real)
    requires SqrtLike(sqrt)
    ensures AdditionalMetricsAsWritten([1.0, 0.0], [0.0, 0.0], Finite(2.0), moments, sqrt)
            == Failure(OutOfBounds(-10, PhaseBins))
  {
    EarlierObservationBins();
    assert FirstNegative([0, -10]) == Some(-10);
  }

  // ---------------------------------------------------------------------
  // The analysis

  /** The period of the strongest sample: one over its frequency, infinite
      when no sample had a positive power. */
  function PeriodOf(frequencies: seq<real>, powers: seq<real>): (p: Num)
    requires |frequencies| == |powers|
    ensures (forall i :: 0 <= i < |powers| ==> powers[i] <= 0.0) ==> p == PosInfinity
  {
    Quotient(1.0, BestPeak(frequencies, powers).frequency)
  }

  /** The parts of the analysis of a light curve long enough to analyse,
      around the metrics it is given. */
  function Assemble(mags: seq<real>, errors: seq<real>, frequencies: seq<real>, powers: seq<real>,
                    sqrt: real -> real, metrics: map<string, Num>): (r: VariabilityResult)
    requires |mags| == |errors| > 0 && |frequencies| == |powers| && SqrtLike(sqrt)
    ensures r.periodPower >= 0.0 && forall i :: 0 <= i < |powers| ==> powers[i] <= r.periodPower
    ensures r.amplitude >= 0.0 && r.additionalMetrics == metrics
    ensures r.isVariable <==> Gt(r.variabilityIndex, 1.5) && r.periodPower > 10.0
    ensures r.variableType == Constant <==> Lt(r.variabilityIndex, 1.5)
    ensures r.variableType != EclipsingBinary && r.variableType != Unknown
    ensures r.period == PeriodOf(frequencies, powers)
    ensures r.variableType != Constant ==> Some(r.variableType) == FirstMatch(Precedence, r.period, r.amplitude, r.periodPower)
    ensures var stats := CalculateStatistics(mags, errors, sqrt);
      r.amplitude == stats.amplitude && r.meanMagnitude == stats.meanMagnitude &&
      r.variabilityIndex == stats.variabilityIndex
  {
    var stats := CalculateStatistics(mags, errors, sqrt);
    var peak := BestPeak(frequencies, powers);
    var period := PeriodOf(frequencies, powers);
    VariabilityResult(IsVariable(stats, peak.power), period, peak.power, stats.amplitude,
                      ClassifyVariableType(stats, period, peak.power), stats.meanMagnitude,
                      stats.variabilityIndex, metrics)
  }

  /** `analyzeVariability` as written. The debug message reads the last
      and first observation times before the length guard runs, so an
      empty light curve throws instead of reaching the guard; a light
      curve with an observation before its first can throw while folding
      phases. The periodogram's frequencies and powers are inputs. */
  function AnalyzeVariabilityAsWritten(times: seq<real>, mags: seq<real>, errors: seq<real>,
                                       frequencies: seq<real>, powers: seq<real>, moments: Moments,
                                       sqrt: real -> real): (r: Result<VariabilityResult>)
    requires |times| == |mags| == |errors| && |frequencies| == |powers| && SqrtLike(sqrt)
    ensures |times| == 0 ==> r == Failure(OutOfBounds(-1, 0))
    ensures 0 < |times| < MinObservations ==> r == Success(Insufficient)
  {
    if |times| == 0 then Failure(OutOfBounds(-1, 0))
    else if |times| < MinObservations then Success(Insufficient)
    else
      match AdditionalMetricsAsWritten(times, mags, PeriodOf(frequencies, powers), moments, sqrt)
      case Failure(e) => Failure(e)
      case Success(metrics) => Success(Assemble(mags, errors, frequencies, powers, sqrt, metrics))
  }

  /** `analyzeVariability` with the guard first and the phases folded into
      [0, 1): fewer than ten observations, none included, give the
      insufficient answer, and the analysis never throws. */
  function AnalyzeVariability(times: seq<real>, mags: seq<real>, errors: seq<real>,
                              frequencies: seq<real>, powers: seq<real>, moments: Moments,
                              sqrt: real -> real): (r: VariabilityResult)
    requires |times| == |mags| == |errors| && |frequencies| == |powers| && SqrtLike(sqrt)
    ensures |times| < MinObservations ==> r == Insufficient
    ensures r.isVariable <==> Gt(r.variabilityIndex, 1.5) && r.periodPower > 10.0
    ensures r.isVariable ==> r.variableType != Constant
    ensures r.variableType == Constant <==> |times| < MinObservations || Lt(r.variabilityIndex, 1.5)
    ensures r.variableType != EclipsingBinary && r.variableType != Unknown
    ensures |times| >= MinObservations ==>
              && r.periodPower >= 0.0 && (forall i :: 0 <= i < |powers| ==> powers[i] <= r.periodPower)
              && r.amplitude >= 0.0
              && ("phase_folded_scatter" in r.additionalMetrics <==> Gt(r.period, 0.0))
              && r.period == PeriodOf(frequencies, powers)
              && (r.variableType != Constant ==>
                    Some(r.variableType) == FirstMatch(Precedence, r.period, r.amplitude, r.periodPower))
              && r.amplitude == CalculateStatistics(mags, errors, sqrt).amplitude
              && r.variabilityIndex == CalculateStatistics(mags, errors, sqrt).variabilityIndex
  {
    if |times| < MinObservations then Insufficient
    else
      var period := PeriodOf(frequencies, powers);
      var r := Assemble(mags, errors, frequencies, powers, sqrt, AdditionalMetrics(times, mags, period, moments, sqrt));
      assert r.period == period;
      r
  }

  /** With the first observation the earliest, the analysis as written
      succeeds with the corrected answer. */
  lemma AnalysisAgreesOnSortedTimes(times: seq<real>, mags: seq<real>, errors: seq<real>,
                                    frequencies: seq<real>, powers: seq<real>, moments: Moments,
                                    sqrt: real -> real)
    requires |times| == |mags| == |errors| && |frequencies| == |powers| && SqrtLike(sqrt)
    requires |times| > 0 && forall k :: 0 <= k < |times| ==> times[0] <= times[k]
    ensures AnalyzeVariabilityAsWritten(times, mags, errors, frequencies, powers, moments, sqrt)
            == Success(AnalyzeVariability(times, mags, errors, frequencies, powers, moments, sqrt))
  {
    if |times| >= MinObservations {
      MetricsAgreeOnSortedTimes(times, mags, PeriodOf(frequencies, powers), moments, sqrt);
    }
  }

  /** An empty light curve throws as written; the corrected analysis
      answers it like any other short one. */
  lemma EmptyLightCurve(frequencies: seq<real>, powers: seq<real>, moments: Moments, sqrt: real -> real)
    requires |frequencies| == |powers| && SqrtLike(sqrt)
    ensures AnalyzeVariabilityAsWritten([], [], [], frequencies, powers, moments, sqrt).Failure?
    ensures AnalyzeVariability([], [], [], frequencies, powers, moments, sqrt) == Insufficient
  {
  }

  /** As written, a light curve long enough to analyse, with a positive
      period and an observation that folds to a negative bin, throws. */
  lemma EarlyObservationFailsAnalysis(times: seq<real>, mags: seq<real>, errors: seq<real>,
                                      frequencies: seq<real>, powers: seq<real>, moments: Moments,
                                      sqrt: real -> real, k: int)
    requires |times| == |mags| == |errors| >= MinObservations && |frequencies| == |powers| && SqrtLike(sqrt)
    requires Gt(PeriodOf(frequencies, powers), 0.0)
    requires 0 <= k < |times| && PhaseBin(PhaseAsWritten(times[k] - times[0], PeriodOf(frequencies, powers))) < 0
    ensures AnalyzeVariabilityAsWritten(times, mags, errors, frequencies, powers, moments, sqrt).Failure?
  {
    assert BinsAsWritten(times, PeriodOf(frequencies, powers))[k] < 0;
  }
}
