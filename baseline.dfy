/**
 * `channel_baseline`: a histogram of a channel's ADC codes, reduced to one
 * baseline value (the weighted mean of the bins within 30 codes of the most
 * populated bin), and the tolerance comparisons the fixture code makes with
 * it.
 *
 * The ADC traces are inputs: reading them from the hardware is not modelled.
 */
module Baseline {
  import Acc = Accumulators

  /** Bins either side of the mode that `end` averages over. */
  const NoiseBins: nat := 30

  /** The default `noise_percent` of a `channel_baseline`. */
  const DefaultNoisePercent: real := 0.5

  /** `1 << n`. */
  function Pow2(n: nat): (r: nat)
    ensures r >= 1
  {
    if n == 0 then 1 else 2 * Pow2(n - 1)
  }

  /** The constructor's clamp of `noise_percent` into [0, 100]. */
  function ClampNoise(p: real): (r: real)
    ensures 0.0 <= r <= 100.0
    ensures 0.0 <= p <= 100.0 ==> r == p
    ensures p > 100.0 ==> r == 100.0
    ensures p < 0.0 ==> r == 0.0
  {
    if p > 100.0 then 100.0 else if p < 0.0 then 0.0 else p
  }

  /**
   * Half-width of the tolerance window of `operator==(int)`: 1 when the noise
   * percentage is zero, otherwise that percentage of the ADC range truncated
   * to an integer.
   */
  function Range(adcBits: nat, noisePercent: real): int
  {
    if noisePercent > 0.0 then Acc.Trunc(Pow2(adcBits) as real * (noisePercent / 100.0)) else 1
  }

  /** A baseline lies within `range` codes of `bl` (both ends included). */
  predicate Within(baseline: int, bl: int, range: int)
  {
    baseline >= bl - range && baseline <= bl + range
  }

  /** With a noise percentage in [0, 100] the tolerance never exceeds the ADC range. */
  lemma RangeBounds(adcBits: nat, noisePercent: real)
    requires 0.0 <= noisePercent <= 100.0
    ensures 0 <= Range(adcBits, noisePercent) <= Pow2(adcBits)
    ensures noisePercent == 0.0 ==> Range(adcBits, noisePercent) == 1
    ensures noisePercent > 0.0 ==>
      Range(adcBits, noisePercent) as real <= Pow2(adcBits) as real * (noisePercent / 100.0)
      < Range(adcBits, noisePercent) as real + 1.0
  {
    if noisePercent > 0.0 {
      var p := Pow2(adcBits);
      var r := p as real * (noisePercent / 100.0);
      ScaleBelow(p as real, noisePercent / 100.0);
      FloorWithin(r, p);
      assert Range(adcBits, noisePercent) == Acc.Trunc(r) == r.Floor;
    }
  }

  /** The floor of a real in [0, p] lies in [0, p] and within one below the real. */
  lemma FloorWithin(r: real, p: nat)
    requires 0.0 <= r <= p as real
    ensures 0 <= r.Floor <= p
    ensures r.Floor as real <= r < r.Floor as real + 1.0
  {
  }

  /** Scaling a nonnegative value by a fraction in (0, 1] stays between 0 and the value. */
  lemma ScaleBelow(p: real, f: real)
    requires p >= 0.0 && 0.0 < f <= 1.0
    ensures 0.0 <= p * f <= p
  {
    assert p * f <= p * 1.0;
  }

  /**
   * For a 12-bit ADC and the default noise of 0.5% the tolerance is 20
   * codes: 2068 compares equal to a target of 2048 and 2069 does not.
   */
  lemma DefaultToleranceExample()
    ensures Range(12, DefaultNoisePercent) == 20
    ensures Within(2068, 2048, Range(12, DefaultNoisePercent))
    ensures Within(2028, 2048, Range(12, DefaultNoisePercent))
    ensures !Within(2069, 2048, Range(12, DefaultNoisePercent))
    ensures !Within(2027, 2048, Range(12, DefaultNoisePercent))
  {
    assert Pow2(12) == 4096;
    assert 4096.0 * (0.5 / 100.0) == 20.48;
  }

  // ---------------------------------------------------------------------
  // The histogram
  // ---------------------------------------------------------------------

  /**
   * The bin `update` counts a sample in, as the source writes it: only a
   * sample greater than the bin count is moved to the last bin.
   */
  function ClampSampleAsWritten(sample: nat, size: nat): int
  {
    if sample > size then size - 1 else sample
  }

  /** A sample equal to the bin count passes the guard and indexes one past the end. */
  lemma ClampSampleAsWrittenOutOfRange(size: nat)
    ensures ClampSampleAsWritten(size, size) == size
    ensures !(ClampSampleAsWritten(size, size) < size)
  {
  }

  /** The bin a sample is counted in: the sample itself, or the last bin when it is off the end. */
  function ClampSample(sample: nat, size: nat): (b: nat)
    requires size > 0
    ensures b < size
    ensures sample < size ==> b == sample
    ensures sample >= size ==> b == size - 1
  {
    if sample >= size then size - 1 else sample
  }

  /** The histogram after counting one sample. */
  function AddSample(bins: seq<nat>, sample: nat): seq<nat>
    requires |bins| > 0
  {
    var b := ClampSample(sample, |bins|);
    bins[b := bins[b] + 1]
  }

  /** The histogram after counting every sample of a trace, in order. */
  function AddTrace(bins: seq<nat>, trace: seq<nat>): (r: seq<nat>)
    requires |bins| > 0
    ensures |r| == |bins|
  {
    if trace == [] then bins else AddSample(AddTrace(bins, trace[..|trace| - 1]), trace[|trace| - 1])
  }

  /** The number of samples in a histogram. */
  function Total(bins: seq<nat>): nat
  {
    if bins == [] then 0 else Total(bins[..|bins| - 1]) + bins[|bins| - 1]
  }

  lemma {:induction false} TotalUpdate(bins: seq<nat>, i: nat, v: nat)
    requires i < |bins|
    ensures Total(bins[i := v]) + bins[i] == Total(bins) + v
  {
    var n := |bins| - 1;
    assert bins[i := v][..n] == if i < n then bins[..n][i := v] else bins[..n];
    if i < n {
      TotalUpdate(bins[..n], i, v);
    }
  }

  /** Every sample of a trace lands in exactly one bin. */
  lemma {:induction false} AddTraceTotal(bins: seq<nat>, trace: seq<nat>)
    requires |bins| > 0
    ensures Total(AddTrace(bins, trace)) == Total(bins) + |trace|
  {
    if trace != [] {
      var before := AddTrace(bins, trace[..|trace| - 1]);
      AddTraceTotal(bins, trace[..|trace| - 1]);
      var b := ClampSample(trace[|trace| - 1], |before|);
      TotalUpdate(before, b, before[b] + 1);
    }
  }

  /** Counting a trace never lowers a bin, and bins no sample reaches keep their count. */
  lemma {:induction false} AddTraceBins(bins: seq<nat>, trace: seq<nat>, i: nat)
    requires |bins| > 0 && i < |bins|
    ensures AddTrace(bins, trace)[i] >= bins[i]
    ensures (forall k :: 0 <= k < |trace| ==> ClampSample(trace[k], |bins|) != i)
      ==> AddTrace(bins, trace)[i] == bins[i]
  {
    if trace != [] {
      var t := trace[..|trace| - 1];
      AddTraceBins(bins, t, i);
      if forall k :: 0 <= k < |trace| ==> ClampSample(trace[k], |bins|) != i {
        assert forall k :: 0 <= k < |t| ==> ClampSample(t[k], |bins|) != i by {
          forall k | 0 <= k < |t| ensures ClampSample(t[k], |bins|) != i {
            assert t[k] == trace[k];
          }
        }
      }
    }
  }

  // ---------------------------------------------------------------------
  // The baseline of a histogram
  // ---------------------------------------------------------------------

  /** `m` is the first index holding the largest count (what `std::max_element` finds). */
  ghost predicate IsFirstMax(bins: seq<nat>, m: nat)
  {
    && m < |bins|
    && (forall j :: 0 <= j < |bins| ==> bins[j] <= bins[m])
    && (forall j :: 0 <= j < m ==> bins[j] < bins[m])
  }

  /** The index of the first most populated bin. */
  function FirstMax(bins: seq<nat>): (m: nat)
    requires |bins| > 0
    ensures m < |bins|
  {
    if |bins| == 1 then 0
    else
      var m := FirstMax(bins[..|bins| - 1]);
      if bins[|bins| - 1] > bins[m] then |bins| - 1 else m
  }

  lemma {:induction false} FirstMaxIsFirstMax(bins: seq<nat>)
    requires |bins| > 0
    ensures IsFirstMax(bins, FirstMax(bins))
  {
    if |bins| > 1 {
      var t := bins[..|bins| - 1];
      FirstMaxIsFirstMax(t);
      assert forall j :: 0 <= j < |t| ==> t[j] == bins[j];
    }
  }

  /** Lowest bin of the window around the mode `m`. */
  function WindowFrom(m: nat): nat
  {
    if m >= NoiseBins then m - NoiseBins else 0
  }

  /** One past the highest bin of the window around the mode `m`. */
  function WindowTo(m: nat, size: nat): nat
  {
    if m + NoiseBins < size then m + NoiseBins else size
  }

  /** Sum of `b * bins[b]` over `from <= b < to`. */
  function WeightedSum(bins: seq<nat>, from: nat, to: nat): nat
    requires to <= |bins|
  {
    if to <= from then 0 else WeightedSum(bins, from, to - 1) + (to - 1) * bins[to - 1]
  }

  /** Sum of `bins[b]` over `from <= b < to`. */
  function WindowCount(bins: seq<nat>, from: nat, to: nat): nat
    requires to <= |bins|
  {
    if to <= from then 0 else WindowCount(bins, from, to - 1) + bins[to - 1]
  }

  /** The number of samples in the window around the mode (0 for no bins). */
  function ModeWindowCount(bins: seq<nat>): nat
  {
    if bins == [] then 0
    else
      var m := FirstMax(bins);
      WindowCount(bins, WindowFrom(m), WindowTo(m, |bins|))
  }

  /** The value `end` stores in `baseline`. */
  function BaselineOf(bins: seq<nat>): int
    requires ModeWindowCount(bins) > 0
  {
    var m := FirstMax(bins);
    var from, to := WindowFrom(m), WindowTo(m, |bins|);
    WeightedSum(bins, from, to) / WindowCount(bins, from, to)
  }

  lemma {:induction false} WeightedSumBounds(bins: seq<nat>, from: nat, to: nat)
    requires from < to <= |bins|
    ensures WindowCount(bins, from, to) * from <= WeightedSum(bins, from, to)
    ensures WeightedSum(bins, from, to) <= WindowCount(bins, from, to) * (to - 1)
  {
    var c, w, x := WindowCount(bins, from, to - 1), WeightedSum(bins, from, to - 1), bins[to - 1];
    if from < to - 1 {
      WeightedSumBounds(bins, from, to - 1);
      MulMono(c, to - 2, to - 1);
    }
    WindowStep(from, to - 1, c, w, x);
  }

  /** `c * a <= c * b` for `a <= b` and `c >= 0`. */
  lemma MulMono(c: nat, a: int, b: int)
    requires a <= b
    ensures c * a <= c * b
  {
  }

  /** Adding `x` samples at bin `hi` keeps the weighted sum between `lo` and `hi` times the count. */
  lemma WindowStep(lo: int, hi: int, c: nat, w: int, x: nat)
    requires lo <= hi && c * lo <= w <= c * hi
    ensures (c + x) * lo <= w + hi * x <= (c + x) * hi
  {
    MulMono(x, lo, hi);
  }

  lemma {:induction false} WindowCountAtLeast(bins: seq<nat>, from: nat, to: nat, i: nat)
    requires from <= i < to <= |bins|
    ensures WindowCount(bins, from, to) >= bins[i]
  {
    if i < to - 1 {
      WindowCountAtLeast(bins, from, to - 1, i);
    }
  }

  /** A histogram with any sample in it has samples in the window around its mode. */
  lemma ModeWindowNonEmpty(bins: seq<nat>)
    requires Total(bins) > 0
    ensures ModeWindowCount(bins) > 0
  {
    var m := FirstMax(bins);
    FirstMaxIsFirstMax(bins);
    var i := PositiveBin(bins);
    WindowCountAtLeast(bins, WindowFrom(m), WindowTo(m, |bins|), m);
  }

  lemma {:induction false} PositiveBinExists(bins: seq<nat>)
    requires Total(bins) > 0
    ensures exists i :: 0 <= i < |bins| && bins[i] > 0
  {
    var n := |bins| - 1;
    if bins[n] == 0 {
      PositiveBinExists(bins[..n]);
      var i :| 0 <= i < n && bins[..n][i] > 0;
      assert bins[i] > 0;
    }
  }

  lemma PositiveBin(bins: seq<nat>) returns (i: nat)
    requires Total(bins) > 0
    ensures i < |bins| && bins[i] > 0
  {
    PositiveBinExists(bins);
    i :| 0 <= i < |bins| && bins[i] > 0;
  }

  /**
   * The baseline lies in the window it was averaged over:
   * `max(mode - 30, 0) <= baseline < min(mode + 30, size)`.
   */
  lemma BaselineInWindow(bins: seq<nat>)
    requires ModeWindowCount(bins) > 0
    ensures WindowFrom(FirstMax(bins)) <= BaselineOf(bins) < WindowTo(FirstMax(bins), |bins|)
  {
    var m := FirstMax(bins);
    var from, to := WindowFrom(m), WindowTo(m, |bins|);
    var n := WindowCount(bins, from, to);
    assert from <= m < to;
    WeightedSumBounds(bins, from, to);
    Acc.FloorDivBounds(WeightedSum(bins, from, to), n, from, to - 1);
  }

  /** The sums over the mode's window give the baseline, inside that window. */
  lemma WindowMean(bins: seq<nat>, sum: nat, samples: nat)
    requires ModeWindowCount(bins) > 0
    requires sum == WeightedSum(bins, WindowFrom(FirstMax(bins)), WindowTo(FirstMax(bins), |bins|))
    requires samples == WindowCount(bins, WindowFrom(FirstMax(bins)), WindowTo(FirstMax(bins), |bins|))
    ensures samples > 0 && sum / samples == BaselineOf(bins)
    ensures WindowFrom(FirstMax(bins)) <= sum / samples < WindowTo(FirstMax(bins), |bins|)
  {
    BaselineInWindow(bins);
  }

  /** `std::max_element` over the bins: the index of the first largest count. */
  method FindMode(bins: array<nat>) returns (m: nat)
    requires bins.Length > 0
    ensures m == FirstMax(bins[..])
    ensures IsFirstMax(bins[..], m)
  {
    m := 0;
    var i := 1;
    while i < bins.Length
      invariant 1 <= i <= bins.Length
      invariant m == FirstMax(bins[..i]) && m < i
    {
      assert bins[..i + 1][..i] == bins[..i];
      if bins[i] > bins[m] {
        m := i;
      }
      i := i + 1;
    }
    assert bins[..] == bins[..bins.Length];
    FirstMaxIsFirstMax(bins[..]);
  }

  /** The loop of `end`: the weighted sum and the sample count over `[from, to)`. */
  method SumWindow(bins: array<nat>, from: nat, to: nat) returns (sum: nat, samples: nat)
    requires from <= to <= bins.Length
    ensures sum == WeightedSum(bins[..], from, to)
    ensures samples == WindowCount(bins[..], from, to)
    ensures samples * from <= sum && (from < to ==> sum <= samples * (to - 1))
  {
    sum, samples := 0, 0;
    var b := from;
    while b < to
      invariant from <= b <= to
      invariant sum == WeightedSum(bins[..], from, b)
      invariant samples == WindowCount(bins[..], from, b)
    {
      sum := sum + b * bins[b];
      samples := samples + bins[b];
      b := b + 1;
    }
    if from < to {
      WeightedSumBounds(bins[..], from, to);
    }
  }

  /** A channel's baseline analysis. */
  class ChannelBaseline {
    var channel: int
    var adcBits: nat
    var noisePercent: real
    var runs: nat
    var baseline: int
    var bins: array<nat>

    constructor (noisePercent0: real)
      ensures channel == -1 && adcBits == 0 && runs == 0 && baseline == -1
      ensures noisePercent == ClampNoise(noisePercent0)
      ensures bins.Length == 0
    {
      channel, adcBits, runs, baseline := -1, 0, 0, -1;
      noisePercent := if noisePercent0 > 100.0 then 100.0 else if noisePercent0 < 0.0 then 0.0 else noisePercent0;
      bins := new nat[0];
    }

    /** Resets the analysis for a channel: `2^adcBits` empty bins and no baseline. */
    method Start(channel0: int, adcBits0: nat)
      modifies this
      ensures channel == channel0 && adcBits == adcBits0
      ensures fresh(bins) && bins.Length == Pow2(adcBits0)
      ensures forall i :: 0 <= i < bins.Length ==> bins[i] == 0
      ensures runs == 0 && baseline == -1 && noisePercent == old(noisePercent)
    {
      channel, adcBits := channel0, adcBits0;
      bins := new nat[Pow2(adcBits0)](_ => 0);
      runs, baseline := 0, -1;
    }

    /** Counts every sample of one trace into the histogram. */
    method Update(trace: seq<nat>)
      requires bins.Length > 0
      modifies this, bins
      ensures bins == old(bins) && bins[..] == AddTrace(old(bins[..]), trace)
      ensures Total(bins[..]) == Total(old(bins[..])) + |trace|
      ensures runs == old(runs) + 1
      ensures channel == old(channel) && adcBits == old(adcBits)
      ensures noisePercent == old(noisePercent) && baseline == old(baseline)
    {
      runs := runs + 1;
      var k := 0;
      while k < |trace|
        invariant 0 <= k <= |trace|
        invariant bins == old(bins) && bins[..] == AddTrace(old(bins[..]), trace[..k])
        invariant runs == old(runs) + 1
        invariant channel == old(channel) && adcBits == old(adcBits)
        invariant noisePercent == old(noisePercent) && baseline == old(baseline)
      {
        var sample := trace[k];
        if sample >= bins.Length {
          sample := bins.Length - 1;
        }
        bins[sample] := bins[sample] + 1;
        assert trace[..k + 1][..k] == trace[..k];
        k := k + 1;
      }
      assert trace[..|trace|] == trace;
      AddTraceTotal(old(bins[..]), trace);
    }

    /**
     * The weighted mean of the bins within 30 codes of the mode. The source
     * divides by the window's sample count unchecked; `ModeWindowNonEmpty`
     * shows that one recorded sample is enough to make it nonzero.
     */
    method End()
      requires ModeWindowCount(bins[..]) > 0
      modifies this`baseline
      ensures baseline == BaselineOf(bins[..])
      ensures WindowFrom(FirstMax(bins[..])) <= baseline < WindowTo(FirstMax(bins[..]), bins.Length)
    {
      ghost var b := bins[..];
      var maxBin := FindMode(bins);
      var fromBin := if maxBin >= NoiseBins then maxBin - NoiseBins else 0;
      var toBin := if maxBin + NoiseBins < bins.Length then maxBin + NoiseBins else bins.Length;
      var sum, samples := SumWindow(bins, fromBin, toBin);
      WindowMean(b, sum, samples);
      baseline := sum / samples;
    }

    /** `operator==(const channel_baseline&)`: exact equality of the baselines. */
    predicate EqualsBaseline(other: ChannelBaseline)
      reads this, other
    {
      baseline == other.baseline
    }

    /** `operator==(int)`: the baseline is within the noise tolerance of `bl`. */
    predicate EqualsInt(bl: int)
      reads this
    {
      Within(baseline, bl, Range(adcBits, noisePercent))
    }

    /** `operator!=(int)`: the negation of the tolerance test. */
    predicate NotEqualsInt(bl: int)
      reads this
    {
      !EqualsInt(bl)
    }

    /** `operator!=(const channel_baseline&)`: the tolerance test against the other baseline. */
    predicate NotEqualsBaseline(other: ChannelBaseline)
      reads this, other
    {
      NotEqualsInt(other.baseline)
    }
  }

  /**
   * `==` and `!=` between two baselines are not complements: `==` is exact
   * while `!=` allows the noise tolerance, so baselines one code apart are
   * neither equal nor unequal.
   */
  lemma ComparisonAsymmetry(a: ChannelBaseline, b: ChannelBaseline)
    requires a.adcBits == 12 && a.noisePercent == DefaultNoisePercent
    requires a.baseline == 2048 && b.baseline == 2049
    ensures !a.EqualsBaseline(b) && !a.NotEqualsBaseline(b)
  {
    DefaultToleranceExample();
  }

  /** Between baselines, `!=` is the negation of `==` exactly when `==` already holds. */
  lemma ComparisonsAgreeOnEqual(a: ChannelBaseline, b: ChannelBaseline)
    requires 0.0 <= a.noisePercent <= 100.0
    ensures a.EqualsBaseline(b) ==> !a.NotEqualsBaseline(b)
    ensures a.NotEqualsBaseline(b) ==> !a.EqualsBaseline(b)
  {
    RangeBounds(a.adcBits, a.noisePercent);
  }
}
