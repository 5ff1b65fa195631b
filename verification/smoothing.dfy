/** The smoother of the estimator (`gaussianFilter`). Despite its name it is a
    clipped moving average: element `i` of the output is the mean of
    `values[max(0, i-3) .. min(n-1, i+3))`, whose END BOUND IS EXCLUSIVE. */
module Smoothing {
  import opened Wrappers

  /** Half-width of the smoothing window. */
  const HalfWidth: nat := 3

  /** Sum of a sequence of reals, left to right. */
  function Sum(w: seq<real>): real
  {
    if |w| == 0 then 0.0 else w[0] + Sum(w[1..])
  }

  /** Arithmetic mean of a non-empty sequence of reals. */
  function Mean(w: seq<real>): (m: real)
    requires |w| > 0
    ensures m * (|w| as real) == Sum(w)
  {
    Sum(w) / (|w| as real)
  }

  /** Bounds of the window for index `i` of a series of length `n`: the
      half-open range `[start, end)` handed to `subList`. */
  datatype Window = Window(start: nat, end: nat)

  function WindowOf(n: nat, i: nat): (w: Window)
    requires i < n
    ensures w.start <= w.end <= n
    ensures w.end < n
  {
    var start := if i < HalfWidth then 0 else i - HalfWidth;
    var end := if n - 1 < i + HalfWidth then n - 1 else i + HalfWidth;
    Window(start, end)
  }

  /** An interior index (at least three from the start and three from the
      last index) gets the six-element window `i-3 .. i+2`. */
  lemma WindowInterior(n: nat, i: nat)
    requires HalfWidth <= i && i + HalfWidth <= n - 1
    ensures WindowOf(n, i) == Window(i - 3, i + 3)
    ensures WindowOf(n, i).end - WindowOf(n, i).start == 6
  {
  }

  /** The window never reaches the last element of the series, so in
      particular the window of the last index leaves out that index. */
  lemma WindowExcludesLast(n: nat, i: nat)
    requires i < n
    ensures !(WindowOf(n, i).start <= n - 1 < WindowOf(n, i).end)
    ensures i == n - 1 ==> WindowOf(n, i) == Window(if n < 4 then 0 else n - 4, n - 1)
  {
  }

  /** The window of `i` contains `i` itself exactly when `i` is not the last
      index. */
  lemma WindowContainsIndex(n: nat, i: nat)
    requires i < n
    ensures WindowOf(n, i).start <= i < WindowOf(n, i).end <==> i < n - 1
  {
  }

  /** Every window is non-empty exactly when the series has at least two
      elements; for a single element the window is `[0, 0)`. */
  lemma WindowNonEmpty(n: nat, i: nat)
    requires i < n
    ensures WindowOf(n, i).start < WindowOf(n, i).end <==> n >= 2
  {
  }

  /** Mean of the window of index `i`. */
  function WindowMean(s: seq<real>, i: nat): (r: real)
    requires i < |s| && |s| >= 2
    ensures WindowOf(|s|, i).start < WindowOf(|s|, i).end
    ensures r * ((WindowOf(|s|, i).end - WindowOf(|s|, i).start) as real)
         == Sum(s[WindowOf(|s|, i).start..WindowOf(|s|, i).end])
  {
    var w := WindowOf(|s|, i);
    WindowNonEmpty(|s|, i);
    Mean(s[w.start..w.end])
  }

  /** The smoother. On a one-element series the only window is empty and the
      source yields NaN, modelled here as `None`; otherwise the output has one
      smoothed value per input value. */
  function Smooth(s: seq<real>): (r: Option<seq<real>>)
    ensures r.None? <==> |s| == 1
    ensures r.Some? ==> |r.value| == |s|
  {
    if |s| == 1 then None
    else Some(seq(|s|, i requires 0 <= i < |s| => WindowMean(s, i)))
  }

  /** Every input value in `[lo, hi]` puts the sum of `w` in
      `[|w|*lo, |w|*hi]`. */
  lemma {:induction false} SumBounds(w: seq<real>, lo: real, hi: real)
    requires forall j :: 0 <= j < |w| ==> lo <= w[j] <= hi
    ensures (|w| as real) * lo <= Sum(w) <= (|w| as real) * hi
  {
    if |w| > 0 {
      SumBounds(w[1..], lo, hi);
      assert (|w| as real) * lo == lo + ((|w| - 1) as real) * lo;
      assert (|w| as real) * hi == hi + ((|w| - 1) as real) * hi;
    }
  }

  /** The mean of values in `[lo, hi]` lies in `[lo, hi]`. */
  lemma MeanBounds(w: seq<real>, lo: real, hi: real)
    requires |w| > 0
    requires forall j :: 0 <= j < |w| ==> lo <= w[j] <= hi
    ensures lo <= Mean(w) <= hi
  {
    SumBounds(w, lo, hi);
    var m := |w| as real;
    assert Mean(w) * m == Sum(w);
  }

  /** Interior outputs are means of exactly the six inputs `i-3 .. i+2`. */
  lemma SmoothInterior(s: seq<real>, i: nat)
    requires 3 <= i && i + 3 <= |s| - 1
    ensures Smooth(s).Some?
    ensures Smooth(s).value[i] == Mean(s[i - 3..i + 3])
  {
    WindowInterior(|s|, i);
  }

  /** The first three outputs average from the start of the series up to,
      but not including, `i+3` (or the last index, if that comes first). */
  lemma SmoothStart(s: seq<real>, i: nat)
    requires i < 3 && i < |s| - 1
    ensures Smooth(s).Some?
    ensures Smooth(s).value[i] == Mean(s[0..if i + 3 < |s| - 1 then i + 3 else |s| - 1])
  {
  }

  /** Indices near the end, other than the last, average from `i-3` up to,
      but not including, the last index. */
  lemma SmoothEnd(s: seq<real>, i: nat)
    requires 3 <= i < |s| - 1 && i + 3 > |s| - 1
    ensures Smooth(s).Some?
    ensures Smooth(s).value[i] == Mean(s[i - 3..|s| - 1])
  {
  }

  /** The output for the last index is the mean of up to three inputs BEFORE
      it and never involves the last input. */
  lemma SmoothLast(s: seq<real>)
    requires |s| >= 2
    ensures Smooth(s).Some?
    ensures Smooth(s).value[|s| - 1] == Mean(s[if |s| < 4 then 0 else |s| - 4..|s| - 1])
  {
    WindowExcludesLast(|s|, |s| - 1);
  }

  /** Smoothing never leaves the range of its input: if every input lies in
      `[lo, hi]`, so does every output. */
  lemma SmoothWithinBounds(s: seq<real>, lo: real, hi: real)
    requires forall j :: 0 <= j < |s| ==> lo <= s[j] <= hi
    requires |s| != 1
    ensures Smooth(s).Some?
    ensures forall i :: 0 <= i < |s| ==> lo <= Smooth(s).value[i] <= hi
  {
    var r := Smooth(s).value;
    forall i | 0 <= i < |s|
      ensures lo <= r[i] <= hi
    {
      var w := WindowOf(|s|, i);
      WindowNonEmpty(|s|, i);
      var win := s[w.start..w.end];
      assert forall j :: 0 <= j < |win| ==> win[j] == s[w.start + j];
      MeanBounds(win, lo, hi);
    }
  }

  /** A constant series of length other than one smooths to itself. */
  lemma SmoothConstant(s: seq<real>, c: real)
    requires forall j :: 0 <= j < |s| ==> s[j] == c
    requires |s| != 1
    ensures Smooth(s) == Some(s)
  {
    SmoothWithinBounds(s, c, c);
    assert Smooth(s).value == s;
  }
}
