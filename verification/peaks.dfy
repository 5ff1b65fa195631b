/** The peak finder of the estimator (`findPeaks`): an index filter keeping
    every interior index whose value is strictly above both neighbours and
    strictly above a fixed absolute threshold. */
module Peaks {

  /** Fixed amplitude threshold, compared with raw smoothed intensity. */
  const Threshold: real := 0.5

  /** `i` is a peak of `v`: an interior index, strictly above both neighbours
      and strictly above the threshold. */
  function IsPeak(v: seq<real>, i: int): (b: bool)
    ensures b ==> 1 <= i <= |v| - 2
    ensures b ==> !(0 < i + 1 < |v| - 1 && v[i + 1] > v[i])
    ensures b ==> !(0 < i - 1 < |v| - 1 && v[i - 1] > v[i])
  {
    && 0 < i < |v| - 1
    && v[i] > v[i - 1]
    && v[i] > v[i + 1]
    && v[i] > Threshold
  }

  predicate StrictlyIncreasing(p: seq<int>)
  {
    forall k, l :: 0 <= k < l < |p| ==> p[k] < p[l]
  }

  /** The peaks of `v` among the indices `i .. |v|-1`, in index order. */
  function PeaksFrom(v: seq<real>, i: nat): (r: seq<int>)
    requires i <= |v|
    ensures forall k :: 0 <= k < |r| ==> i <= r[k] && IsPeak(v, r[k])
    ensures forall j :: i <= j && IsPeak(v, j) ==> j in r
    ensures StrictlyIncreasing(r)
    decreases |v| - i
  {
    if i == |v| then []
    else if IsPeak(v, i) then [i] + PeaksFrom(v, i + 1)
    else PeaksFrom(v, i + 1)
  }

  /** All peaks of `v`, in increasing index order. */
  function FindPeaks(v: seq<real>): (r: seq<int>)
    ensures forall k :: 0 <= k < |r| ==> IsPeak(v, r[k])
    ensures forall j :: IsPeak(v, j) ==> j in r
    ensures StrictlyIncreasing(r)
  {
    PeaksFrom(v, 0)
  }

  /** An index is returned exactly when it is a peak; in particular the first
      and last indices never are. */
  lemma FindPeaksExact(v: seq<real>, j: int)
    ensures j in FindPeaks(v) <==> IsPeak(v, j)
    ensures j in FindPeaks(v) ==> 1 <= j <= |v| - 2
  {
  }

  /** Two consecutive peaks are at least two indices apart: a peak is above
      its right neighbour, so that neighbour cannot be a peak. */
  lemma PeaksSpaced(v: seq<real>)
    ensures forall k :: 0 <= k < |FindPeaks(v)| - 1 ==> FindPeaks(v)[k + 1] - FindPeaks(v)[k] >= 2
  {
    var p := FindPeaks(v);
    forall k | 0 <= k < |p| - 1
      ensures p[k + 1] - p[k] >= 2
    {
      assert IsPeak(v, p[k]) && IsPeak(v, p[k + 1]);
    }
  }

  /** Because every comparison is strict, a constant series has no peaks. */
  lemma ConstantHasNoPeaks(v: seq<real>, c: real)
    requires forall j :: 0 <= j < |v| ==> v[j] == c
    ensures FindPeaks(v) == []
  {
    var p := FindPeaks(v);
    assert |p| > 0 ==> IsPeak(v, p[0]);
  }

  /** So does any series whose every value is at most the threshold. */
  lemma LowSeriesHasNoPeaks(v: seq<real>)
    requires forall j :: 0 <= j < |v| ==> v[j] <= Threshold
    ensures FindPeaks(v) == []
  {
    var p := FindPeaks(v);
    assert |p| > 0 ==> IsPeak(v, p[0]);
  }

  /** A series of fewer than three values has no interior index, hence no
      peaks. */
  lemma ShortSeriesHasNoPeaks(v: seq<real>)
    requires |v| < 3
    ensures FindPeaks(v) == []
  {
    var p := FindPeaks(v);
    assert |p| > 0 ==> IsPeak(v, p[0]);
  }
}
