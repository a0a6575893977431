/** The signal arithmetic of the fixed-window monitor (web/index.py):
    the two-stage zero-phase filter of one batch, the guarantees of the
    peak finder, and the HRV statistics computed from peak indices
    (RR intervals, BPM, SDNN, RMSSD, pNN50). The scipy routines are
    foreign: they are parameters whose types carry what scipy promises. */
module Hrv {
  import opened Common

  /** `FS`, the sampling rate in Hz. */
  const Fs: nat := 333
  /** `distance = int(0.5 * FS)`, in samples. */
  const MinPeakDistance: nat := 166
  /** `np.abs(diff_rr) > 50`, in ms. */
  const Nn50Threshold: real := 50.0

  // ---------------------------------------------------------------------
  // filter_batch
  // ---------------------------------------------------------------------

  predicate LengthPreserved(x: seq<real>, y: Option<seq<real>>) {
    y.Some? ==> |y.value| == |x|
  }

  /** One `filtfilt` pass with fixed coefficients: the filtered signal (of
      the same length), or None when scipy raises. */
  type ZeroPhaseStage = f: seq<real> -> Option<seq<real>> | forall x :: LengthPreserved(x, f(x))
    witness (x: seq<real>) => None

  /** `filter_batch`: the notch pass, then the low-pass one. The output is
      as long as the input; if the notch pass raises the samples come back
      unfiltered, and if only the low-pass pass raises the notch output is
      returned (it was already assigned when the exception came). */
  function FilterBatch(samples: seq<real>, notch: ZeroPhaseStage, lowPass: ZeroPhaseStage): (r: seq<real>)
    ensures |r| == |samples|
    ensures samples == [] ==> r == []
    ensures notch(samples).None? ==> r == samples
    ensures samples != [] && notch(samples).Some? && lowPass(notch(samples).value).None? ==> r == notch(samples).value
    ensures samples != [] && notch(samples).Some? && lowPass(notch(samples).value).Some? ==>
              r == lowPass(notch(samples).value).value
  {
    if |samples| == 0 then []
    else match notch(samples)
      case None => samples
      case Some(notched) =>
        match lowPass(notched)
        case None => notched
        case Some(smoothed) => smoothed
  }

  // ---------------------------------------------------------------------
  // find_peaks
  // ---------------------------------------------------------------------

  /** Consecutive peaks are at least MinPeakDistance samples apart (hence
      strictly increasing). */
  predicate WellSpaced(peaks: seq<nat>) {
    forall i :: 0 <= i < |peaks| - 1 ==> peaks[i] + MinPeakDistance <= peaks[i + 1]
  }

  /** What every scipy peak satisfies: some earlier sample and some later
      sample are strictly lower (a local maximum or the middle of a plateau). */
  predicate RisesAndFalls(x: seq<real>, p: nat)
    requires p < |x|
  {
    (exists j :: 0 <= j < p && x[j] < x[p]) && (exists k :: p < k < |x| && x[k] < x[p])
  }

  /** `find_peaks(x, distance=MinPeakDistance, height=np.mean(x))`. */
  predicate FoundPeaks(x: seq<real>, peaks: seq<nat>) {
    && WellSpaced(peaks)
    && forall i :: 0 <= i < |peaks| ==>
         peaks[i] < |x| && x[peaks[i]] >= Mean(x) && RisesAndFalls(x, peaks[i])
  }

  type PeakFinder = f: seq<real> -> seq<nat> | forall x :: FoundPeaks(x, f(x))
    witness (x: seq<real>) => []

  /** A flat window (all zeros, electrodes disconnected) has no peak. */
  lemma FlatWindowHasNoPeaks(x: seq<real>, findPeaks: PeakFinder)
    requires forall i, j :: 0 <= i < |x| && 0 <= j < |x| ==> x[i] == x[j]
    ensures findPeaks(x) == []
  {
    var peaks := findPeaks(x);
    if peaks != [] {
      FlatHasNoRise(x, peaks[0]);
      assert false;
    }
  }

  lemma FlatHasNoRise(x: seq<real>, p: nat)
    requires forall i, j :: 0 <= i < |x| && 0 <= j < |x| ==> x[i] == x[j]
    requires p < |x|
    ensures !RisesAndFalls(x, p)
  {
  }

  // ---------------------------------------------------------------------
  // calculate_hrv_metrics
  // ---------------------------------------------------------------------

  /** `peaks_time_ms = (peaks / FS) * 1000` */
  function PeakTimesMs(peaks: seq<nat>): (t: seq<real>)
    ensures |t| == |peaks|
    ensures WellSpaced(peaks) ==> forall i :: 0 <= i < |t| - 1 ==> t[i] < t[i + 1]
  {
    seq(|peaks|, i requires 0 <= i < |peaks| => peaks[i] as real / Fs as real * 1000.0)
  }

  /** `np.diff` */
  function Diff(s: seq<real>): (d: seq<real>)
    ensures |d| == if s == [] then 0 else |s| - 1
    ensures forall i :: 0 <= i < |d| ==> d[i] == s[i + 1] - s[i]
  {
    if s == [] then [] else seq(|s| - 1, i requires 0 <= i < |s| - 1 => s[i + 1] - s[i])
  }

  /** `rr_intervals = np.diff(peaks_time_ms)` */
  function RrIntervals(peaks: seq<nat>): (rr: seq<real>)
    ensures |peaks| >= 1 ==> |rr| == |peaks| - 1
    ensures WellSpaced(peaks) ==> forall i :: 0 <= i < |rr| ==> rr[i] > 0.0
  {
    Diff(PeakTimesMs(peaks))
  }

  /** There is one RR interval per pair of consecutive peaks, the gap in
      samples converted to ms; well-spaced peaks give RR intervals of at
      least 166000/333 ms. */
  lemma RrIntervalsFromPeaks(peaks: seq<nat>)
    requires |peaks| >= 1
    ensures |RrIntervals(peaks)| == |peaks| - 1
    ensures forall i :: 0 <= i < |peaks| - 1 ==>
              RrIntervals(peaks)[i] == (peaks[i + 1] as real - peaks[i] as real) * 1000.0 / Fs as real
    ensures WellSpaced(peaks) ==> forall i :: 0 <= i < |peaks| - 1 ==>
              RrIntervals(peaks)[i] >= MinPeakDistance as real * 1000.0 / Fs as real
  {
    var t := PeakTimesMs(peaks);
    forall i | 0 <= i < |peaks| - 1
      ensures t[i + 1] - t[i] == (peaks[i + 1] as real - peaks[i] as real) * 1000.0 / Fs as real
    {
    }
  }

  /** The differences of a list sum to its last element minus its first. */
  lemma {:induction false} DiffTelescopes(s: seq<real>)
    requires |s| >= 1
    ensures Sum(Diff(s)) == s[|s| - 1] - s[0]
    decreases |s|
  {
    if |s| == 1 {
      assert Diff(s) == [];
    } else {
      var d := Diff(s);
      DiffOfTail(s);
      DiffTelescopes(s[1..]);
      assert Sum(d) == d[0] + Sum(Diff(s[1..]));
      assert s[1..][0] == s[1] && s[1..][|s| - 2] == s[|s| - 1];
    }
  }

  lemma DiffOfTail(s: seq<real>)
    requires |s| >= 2
    ensures Diff(s)[1..] == Diff(s[1..])
    ensures Diff(s)[0] == s[1] - s[0]
  {
    var d, e := Diff(s), Diff(s[1..]);
    assert |d[1..]| == |e|;
    forall i | 0 <= i < |e|
      ensures d[1..][i] == e[i]
    {
      assert d[i + 1] == s[i + 2] - s[i + 1];
    }
  }

  /** Well-spaced peaks span at least MinPeakDistance samples per gap. */
  lemma {:induction false} SpanOfWellSpaced(peaks: seq<nat>)
    requires |peaks| >= 1 && WellSpaced(peaks)
    ensures peaks[|peaks| - 1] >= peaks[0] + MinPeakDistance * (|peaks| - 1)
    decreases |peaks|
  {
    if |peaks| > 1 {
      SpanOfWellSpaced(peaks[1..]);
    }
  }

  /** The first and last peak times are the span of the peaks in ms apart. */
  lemma TimeSpan(peaks: seq<nat>)
    requires |peaks| >= 2
    ensures var k := |peaks|;
            PeakTimesMs(peaks)[k - 1] - PeakTimesMs(peaks)[0]
            == (peaks[k - 1] as real - peaks[0] as real) * 1000.0 / Fs as real
  {
    var k := |peaks|;
    var t := PeakTimesMs(peaks);
    assert t[k - 1] == peaks[k - 1] as real / Fs as real * 1000.0;
    assert t[0] == peaks[0] as real / Fs as real * 1000.0;
  }

  /** `mean_rr`, in closed form: the span of the peaks in ms over the
      number of intervals. */
  lemma MeanRrClosedForm(peaks: seq<nat>)
    requires |peaks| >= 2 && WellSpaced(peaks)
    ensures var k := |peaks|;
            && |RrIntervals(peaks)| == k - 1
            && Mean(RrIntervals(peaks))
               == (peaks[k - 1] as real - peaks[0] as real) * 1000.0 / Fs as real / (k - 1) as real
            && Mean(RrIntervals(peaks)) > 0.0
  {
    var k := |peaks|;
    var t := PeakTimesMs(peaks);
    var rr := RrIntervals(peaks);
    var span := peaks[k - 1] as real - peaks[0] as real;
    var n := (k - 1) as real;
    var c := span * 1000.0 / Fs as real;
    DiffTelescopes(t);
    TimeSpan(peaks);
    assert Sum(rr) == c;
    assert |rr| as real == n;
    assert Mean(rr) == c / n;
    SpanOfWellSpaced(peaks);
    assert c > 0.0;
    PositiveQuotient(c, n);
  }

  lemma PositiveQuotient(a: real, b: real)
    requires a > 0.0 && b > 0.0
    ensures a / b > 0.0
  {
  }

  /** The largest BPM that well-spaced peaks can give: 60 * 333 / 166. */
  const MaxBpm: real := 60.0 * Fs as real / MinPeakDistance as real

  /** `bpm = 60000 / mean_rr` */
  function Bpm(peaks: seq<nat>): (bpm: real)
    requires |peaks| >= 2 && WellSpaced(peaks)
    ensures bpm > 0.0
  {
    MeanRrClosedForm(peaks);
    60000.0 / Mean(RrIntervals(peaks))
  }

  /** By telescoping, BPM is 60 * 333 * (k - 1) over the span in samples of
      the k peaks; it is positive and at most MaxBpm. */
  lemma BpmClosedForm(peaks: seq<nat>)
    requires |peaks| >= 2 && WellSpaced(peaks)
    ensures var k := |peaks|;
            && peaks[0] < peaks[k - 1]
            && Bpm(peaks) == 60.0 * Fs as real * (k - 1) as real / (peaks[k - 1] as real - peaks[0] as real)
            && Bpm(peaks) * (peaks[k - 1] as real - peaks[0] as real) == 60.0 * Fs as real * (k - 1) as real
    ensures 0.0 < Bpm(peaks) <= MaxBpm
  {
    var k := |peaks|;
    var n := (k - 1) as real;
    var span := peaks[k - 1] as real - peaks[0] as real;
    var mean := Mean(RrIntervals(peaks));
    MeanRrClosedForm(peaks);
    assert mean == span * 1000.0 / Fs as real / n;
    SpanOfWellSpaced(peaks);
    assert span >= MinPeakDistance as real * n;
    assert Bpm(peaks) == 60000.0 / mean;
    BpmOfMeanRr(n, span, mean, Bpm(peaks));
  }

  /** The arithmetic of `BpmClosedForm`: 60000 over the mean RR of n
      intervals spanning `span` samples, bounded through the minimum
      spacing. */
  lemma BpmOfMeanRr(n: real, span: real, mean: real, bpm: real)
    requires n >= 1.0 && span >= MinPeakDistance as real * n
    requires mean == span * 1000.0 / Fs as real / n && bpm == 60000.0 / mean
    ensures span > 0.0
    ensures bpm == 60.0 * Fs as real * n / span
    ensures bpm * span == 60.0 * Fs as real * n
    ensures 0.0 < bpm <= MaxBpm
  {
    var c := span * 1000.0 / 333.0;
    DivDiv(60000.0, c, n);
    Rescale(n, span);
    DivMonotone(19980.0 * n, span, 166.0 * n);
    Cancel(19980.0, 166.0, n);
    PositiveQuotient(19980.0 * n, span);
    QuotientTimesDivisor(19980.0 * n, span);
  }

  /** BPM times the mean RR interval in ms is one minute. */
  lemma BpmInvertsMeanRr(peaks: seq<nat>)
    requires |peaks| >= 2 && WellSpaced(peaks)
    ensures Bpm(peaks) * Mean(RrIntervals(peaks)) == 60000.0
  {
    MeanRrClosedForm(peaks);
    QuotientTimesDivisor(60000.0, Mean(RrIntervals(peaks)));
  }

  lemma QuotientTimesDivisor(a: real, b: real)
    requires b > 0.0
    ensures a / b * b == a
  {
  }

  lemma DivDiv(a: real, b: real, c: real)
    requires b > 0.0 && c > 0.0
    ensures a / (b / c) == a * c / b
  {
  }

  lemma Rescale(n: real, span: real)
    requires span > 0.0
    ensures 60000.0 * n / (span * 1000.0 / 333.0) == 19980.0 * n / span
  {
    var x := 60000.0 * n / (span * 1000.0 / 333.0);
    assert x * (span * 1000.0 / 333.0) == 60000.0 * n;
    assert x * span == 19980.0 * n;
  }

  lemma Cancel(a: real, b: real, n: real)
    requires b > 0.0 && n > 0.0
    ensures a * n / (b * n) == a / b
  {
    var x := a * n / (b * n);
    assert x * (b * n) == a * n;
    assert (x * b) * n == a * n;
    assert x * b == a;
  }

  lemma DivMonotone(a: real, big: real, small: real)
    requires a >= 0.0 && big >= small > 0.0
    ensures a / big <= a / small
  {
    var q1, q2 := a / big, a / small;
    assert q1 * big == a == q2 * small;
    assert q2 >= 0.0;
    assert q2 * small <= q2 * big;
  }

  /** Peaks at samples 0, 167 and 333: RR intervals of 167 and 166 samples,
      mean 500 ms, 120 bpm. */
  lemma ExampleBpm()
    ensures WellSpaced([0, 167, 333]) && Bpm([0, 167, 333]) == 120.0
  {
    BpmClosedForm([0, 167, 333]);
  }

  function Squares(s: seq<real>): (r: seq<real>)
    ensures |r| == |s|
    ensures forall i :: 0 <= i < |r| ==> r[i] >= 0.0
  {
    seq(|s|, i requires 0 <= i < |s| => s[i] * s[i])
  }

  function Deviations(s: seq<real>, centre: real): (r: seq<real>)
    ensures |r| == |s|
  {
    seq(|s|, i requires 0 <= i < |s| => s[i] - centre)
  }

  /** `np.std(rr, ddof=1) ** 2`: the sample variance, NaN for fewer than
      two values (the square root is left out). */
  function SampleVariance(s: seq<real>): (v: Stat)
    ensures v.NaN? <==> |s| < 2
    ensures v.Num? ==> v.value >= 0.0
  {
    if |s| < 2 then NaN
    else
      var squares := Squares(Deviations(s, Mean(s)));
      SumNonNegative(squares);
      Num(Sum(squares) / (|s| - 1) as real)
  }

  /** With `ddof=1`, two RR intervals give the squared deviations from their
      midpoint summed over a denominator of 1. */
  lemma SampleVarianceOfTwo(a: real, b: real)
    ensures SampleVariance([a, b]) == Num((a - b) * (a - b) / 2.0)
  {
    var s := [a, b];
    var m := (a + b) / 2.0;
    SumOfTwo(a, b);
    assert Mean(s) == m;
    var x, y := (a - m) * (a - m), (b - m) * (b - m);
    var squares := Squares(Deviations(s, m));
    var devs := Deviations(s, m);
    assert devs[0] == a - m && devs[1] == b - m;
    assert squares[0] == x && squares[1] == y;
    assert squares == [x, y];
    SumOfTwo(x, y);
    assert x == (a - b) * (a - b) / 4.0;
    assert y == (a - b) * (a - b) / 4.0;
  }

  lemma SumOfTwo(a: real, b: real)
    ensures Sum([a, b]) == a + b
  {
    assert [a, b][1..] == [b];
    assert [b][1..] == [];
    assert Sum([b]) == b + Sum([]);
    assert Sum([a, b]) == a + Sum([b]);
  }

  /** `np.mean(diff_rr ** 2)`: RMSSD squared, NaN for an empty list. */
  function MeanSquare(s: seq<real>): (v: Stat)
    ensures v.NaN? <==> |s| == 0
    ensures v.Num? ==> v.value >= 0.0
  {
    if |s| == 0 then NaN
    else
      SumNonNegative(Squares(s));
      Num(Mean(Squares(s)))
  }

  function Abs(x: real): real {
    if x < 0.0 then -x else x
  }

  /** `nn50 = np.sum(np.abs(diff_rr) > 50)` */
  function Nn50(d: seq<real>): (n: nat)
    ensures n <= |d|
    ensures n == 0 <==> forall i :: 0 <= i < |d| ==> Abs(d[i]) <= Nn50Threshold
    ensures n == |d| <==> forall i :: 0 <= i < |d| ==> Abs(d[i]) > Nn50Threshold
  {
    if d == [] then 0
    else (if Abs(d[0]) > Nn50Threshold then 1 else 0) + Nn50(d[1..])
  }

  /** `pnn50 = (nn50 / len(diff_rr)) * 100 if len(diff_rr) > 0 else 0` */
  function Pnn50(d: seq<real>): (p: real)
    ensures 0.0 <= p <= 100.0
    ensures d == [] ==> p == 0.0
    ensures p == 0.0 <==> forall i :: 0 <= i < |d| ==> Abs(d[i]) <= Nn50Threshold
  {
    if |d| > 0 then
      var n := Nn50(d) as real;
      var len := |d| as real;
      Percentage(n, len);
      (n / len) * 100.0
    else 0.0
  }

  /** A share of n out of len, as a percentage. */
  lemma Percentage(n: real, len: real)
    requires 0.0 <= n <= len && len > 0.0
    ensures 0.0 <= (n / len) * 100.0 <= 100.0
    ensures (n / len) * 100.0 == 0.0 <==> n == 0.0
  {
    var q := n / len;
    assert q * len == n;
    assert q >= 0.0;
    assert (q - 1.0) * len == n - len <= 0.0;
    assert q <= 1.0;
    if n != 0.0 {
      assert q != 0.0;
    }
  }

  datatype HrvMetrics = HrvMetrics(bpm: real, sdnnSquared: Stat, rmssdSquared: Stat, pnn50: real)

  /** The statistics of `calculate_hrv_metrics` from the peaks it found;
      None when there are fewer than two peaks (the function returns early). */
  function ComputeHrv(peaks: seq<nat>): (m: Option<HrvMetrics>)
    requires WellSpaced(peaks)
    ensures m.None? <==> |peaks| < 2
    ensures m.Some? ==> && 0.0 < m.value.bpm <= MaxBpm
                        && 0.0 <= m.value.pnn50 <= 100.0
                        && (m.value.sdnnSquared.NaN? <==> |peaks| == 2)
                        && (m.value.rmssdSquared.NaN? <==> |peaks| == 2)
                        && (m.value.sdnnSquared.Num? ==> m.value.sdnnSquared.value >= 0.0)
                        && (m.value.rmssdSquared.Num? ==> m.value.rmssdSquared.value >= 0.0)
                        && (|peaks| == 2 ==> m.value.pnn50 == 0.0)
    ensures m.Some? ==> && m.value.bpm == Bpm(peaks)
                        && m.value.sdnnSquared == SampleVariance(RrIntervals(peaks))
                        && m.value.rmssdSquared == MeanSquare(Diff(RrIntervals(peaks)))
                        && m.value.pnn50 == Pnn50(Diff(RrIntervals(peaks)))
  {
    if |peaks| < 2 then None
    else
      BpmClosedForm(peaks);
      RrIntervalsFromPeaks(peaks);
      var rr := RrIntervals(peaks);
      var diffRr := Diff(rr);
      Some(HrvMetrics(Bpm(peaks), SampleVariance(rr), MeanSquare(diffRr), Pnn50(diffRr)))
  }
}
