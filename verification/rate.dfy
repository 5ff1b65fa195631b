/** The rate calculator of the estimator (`calculateBreathingRate`): smooth,
    find peaks, then turn the mean peak-to-peak distance (in samples) into
    `60 / mean` cycles per minute. */
module Rate {
  import opened Wrappers
  import opened Smoothing
  import opened Peaks

  /** Consecutive differences `p[k+1] - p[k]` (Kotlin's `zipWithNext`). */
  function Diffs(p: seq<int>): (d: seq<int>)
    ensures |p| > 0 ==> |d| == |p| - 1
    ensures |p| == 0 ==> d == []
  {
    if |p| < 2 then [] else [p[1] - p[0]] + Diffs(p[1..])
  }

  /** Element `k` of the differences is the later index minus the earlier
      one, as `zipWithNext { a, b -> b - a }` computes. */
  lemma {:induction false} DiffsElements(p: seq<int>)
    ensures forall k :: 0 <= k < |Diffs(p)| ==> Diffs(p)[k] == p[k + 1] - p[k]
  {
    if |p| >= 2 {
      DiffsElements(p[1..]);
    }
  }

  function IntSum(d: seq<int>): int
  {
    if |d| == 0 then 0 else d[0] + IntSum(d[1..])
  }

  /** The differences of an index sequence telescope: their sum is the
      distance from the first index to the last. */
  lemma {:induction false} DiffsTelescope(p: seq<int>)
    requires |p| > 0
    ensures IntSum(Diffs(p)) == p[|p| - 1] - p[0]
  {
    if |p| >= 2 {
      DiffsTelescope(p[1..]);
    }
  }

  /** Every difference is at least `g` when consecutive indices are at least
      `g` apart. */
  lemma {:induction false} DiffsAtLeast(p: seq<int>, g: int)
    requires forall k :: 0 <= k < |p| - 1 ==> p[k + 1] - p[k] >= g
    ensures forall k :: 0 <= k < |Diffs(p)| ==> Diffs(p)[k] >= g
  {
    if |p| >= 2 {
      DiffsAtLeast(p[1..], g);
      assert Diffs(p) == [p[1] - p[0]] + Diffs(p[1..]);
    }
  }

  /** A sum of `|d|` terms, each at least `g`, is at least `|d| * g`. */
  lemma {:induction false} IntSumAtLeast(d: seq<int>, g: int)
    requires forall k :: 0 <= k < |d| ==> d[k] >= g
    ensures IntSum(d) >= |d| * g
  {
    if |d| > 0 {
      IntSumAtLeast(d[1..], g);
    }
  }

  /** Rate from a strictly increasing peak list, as the source computes it:
      no peak gives `0.0`; one peak averages an empty list of differences,
      which is NaN (`None`); otherwise `60 / average difference`. */
  function RateFromPeaks(p: seq<int>): (r: Option<real>)
    requires StrictlyIncreasing(p)
    ensures |p| == 0 ==> r == Some(0.0)
    ensures r.None? <==> |p| == 1
    ensures |p| >= 2 ==> r.Some? && r.value > 0.0
  {
    if |p| == 0 then Some(0.0)
    else if |p| == 1 then None
    else
      var d := Diffs(p);
      DiffsTelescope(p);
      var avgPeriod := (IntSum(d) as real) / (|d| as real);
      Some(60.0 / avgPeriod)
  }

  /** With two or more peaks the average period is `(last - first) / (k - 1)`,
      so the rate depends only on the first peak, the last peak and their
      count. */
  lemma RateClosedForm(p: seq<int>)
    requires StrictlyIncreasing(p)
    requires |p| >= 2
    ensures RateFromPeaks(p)
         == Some(60.0 * ((|p| - 1) as real) / ((p[|p| - 1] - p[0]) as real))
  {
    DiffsTelescope(p);
    var k := (|p| - 1) as real;
    var span := (p[|p| - 1] - p[0]) as real;
    assert span > 0.0;
    assert 60.0 / (span / k) == 60.0 * k / span;
  }

  /** With peaks at least two samples apart the average period is at least
      two, so the rate lies in `(0, 30]`. */
  lemma RateBounded(p: seq<int>)
    requires StrictlyIncreasing(p)
    requires |p| >= 2
    requires forall k :: 0 <= k < |p| - 1 ==> p[k + 1] - p[k] >= 2
    ensures RateFromPeaks(p).Some?
    ensures 0.0 < RateFromPeaks(p).value <= 30.0
  {
    DiffsAtLeast(p, 2);
    IntSumAtLeast(Diffs(p), 2);
    DiffsTelescope(p);
    RateClosedForm(p);
    var k := (|p| - 1) as real;
    var span := (p[|p| - 1] - p[0]) as real;
    assert span >= 2.0 * k;
    assert 60.0 * k / span <= 30.0 by {
      assert 60.0 * k <= 30.0 * span;
    }
  }

  /** The whole estimator over the collected series. A one-element series
      smooths to NaN, but the peak finder returns nothing for it without
      comparing that NaN, so the estimate is `0.0`. */
  function BreathingRate(values: seq<real>): (r: Option<real>)
    ensures |values| < 3 ==> r == Some(0.0)
    ensures r.Some? ==> 0.0 <= r.value <= 30.0
  {
    match Smooth(values)
    case None => Some(0.0)
    case Some(smoothed) =>
      var p := FindPeaks(smoothed);
      assert |smoothed| < 3 ==> p == [] by {
        if |smoothed| < 3 {
          ShortSeriesHasNoPeaks(smoothed);
        }
      }
      PeaksSpaced(smoothed);
      if |p| >= 2 then RateBounded(p); RateFromPeaks(p) else RateFromPeaks(p)
  }

  /** The estimate is NaN exactly when the smoothed series has one peak. */
  lemma BreathingRateUndefined(values: seq<real>)
    ensures BreathingRate(values).None?
        <==> (|values| >= 2 && |FindPeaks(Smooth(values).value)| == 1)
  {
  }

  /** A constant series has a constant smoothed series, no peaks and rate
      `0.0`. */
  lemma ConstantSeriesRate(values: seq<real>, c: real)
    requires forall j :: 0 <= j < |values| ==> values[j] == c
    ensures BreathingRate(values) == Some(0.0)
  {
    if |values| != 1 {
      SmoothConstant(values, c);
      ConstantHasNoPeaks(values, c);
    }
  }

  /** A series whose values never exceed the threshold has no peaks after
      smoothing, hence rate `0.0`. */
  lemma LowSeriesRate(values: seq<real>)
    requires forall j :: 0 <= j < |values| ==> values[j] <= Threshold
    ensures BreathingRate(values) == Some(0.0)
  {
    if |values| != 1 {
      var lo := if |values| == 0 then 0.0 else Min(values);
      SmoothWithinBounds(values, lo, Threshold);
      LowSeriesHasNoPeaks(Smooth(values).value);
    }
  }

  /** Smallest value of a non-empty series. */
  function Min(s: seq<real>): (m: real)
    requires |s| > 0
    ensures forall j :: 0 <= j < |s| ==> m <= s[j]
    ensures exists j :: 0 <= j < |s| && m == s[j]
  {
    if |s| == 1 then s[0]
    else
      var rest := Min(s[1..]);
      assert forall j :: 1 <= j < |s| ==> s[j] == s[1..][j - 1];
      if s[0] <= rest then s[0] else rest
  }
}
