# Breathing-rate estimator — Dafny model

This project models the numeric core of an Android breathing-detection app.
For every camera frame in which a face is found, the app appends the mean of
the face's green channel to an ever-growing list. Once the list holds more
than fifty values, every new value re-runs the estimator over the whole list.
The estimator has three stages:

1. **Smoother** (`gaussianFilter`). Despite its name it is a clipped moving
   average. Output `i` is the mean of `values[max(0, i-3) .. min(n-1, i+3))`.
   The end bound is exclusive, so:
   - interior windows hold the six values `i-3 .. i+2`;
   - the last value never enters any window;
   - a one-element list gets an empty window, whose average is NaN.
2. **Peak finder** (`findPeaks`). It keeps every interior index whose value is
   strictly greater than both neighbours and strictly greater than the fixed
   threshold `0.5`.
3. **Rate** (`calculateBreathingRate`). No peak gives `0.0`. Otherwise the
   result is `60 / average(consecutive peak distances)`. With exactly one peak
   that average is over an empty list and is NaN.

All values are Dafny `real`. The two NaN cases are the `None` of an
`Option` (module `Wrappers`):
- `Smoothing.Smooth` is `None` exactly for a one-element list.
- `Rate.RateFromPeaks` is `None` exactly for one peak.

`Rate.BreathingRate` follows the source on a one-element list. The peak finder
returns nothing for such a list without ever comparing the NaN, so the
estimate is `0.0`.

Modules follow the pipeline: `Smoothing`, `Peaks`, `Rate`, `Pipeline`
(the append-and-trigger step). Facts about the app's behaviour that the model
keeps:
- the estimate runs when the list holds more than 50 values after the append;
- no peak gives `0.0`;
- one peak gives NaN;
- the window end is exclusive;
- the app does no sample validation and keeps no timestamps;
- it has no reset and no bounded buffer.

## Model

| member | source | states |
|---|---|---|
| Smoothing.Mean | app/src/main/java/com/example/breathedetection_test/MainActivity.kt:237 | the mean of a non-empty list times its length is the list's sum, as Kotlin's `average()` |
| Smoothing.WindowMean | app/src/main/java/com/example/breathedetection_test/MainActivity.kt:235-237 | the window of a series of at least two values is non-empty, and its mean times its width is the sum of `values[start..end)` |
| Smoothing.WindowOf | app/src/main/java/com/example/breathedetection_test/MainActivity.kt:235-236 | the window of index `i` is a half-open range inside the series that never reaches index `n-1` |
| Smoothing.WindowInterior | app/src/main/java/com/example/breathedetection_test/MainActivity.kt:235-237 | an index at least 3 from both the start and the last index averages exactly the six values `i-3 .. i+2` |
| Smoothing.WindowExcludesLast | app/src/main/java/com/example/breathedetection_test/MainActivity.kt:236-237 | no window contains the last index; the last index's window is `[max(0, n-4), n-1)` |
| Smoothing.WindowContainsIndex | app/src/main/java/com/example/breathedetection_test/MainActivity.kt:235-237 | the window of `i` contains `i` if and only if `i` is not the last index |
| Smoothing.WindowNonEmpty | app/src/main/java/com/example/breathedetection_test/MainActivity.kt:235-237 | every window is non-empty if and only if the series has at least two values |
| Smoothing.Smooth | app/src/main/java/com/example/breathedetection_test/MainActivity.kt:232-239 | the smoothed series is undefined (NaN) exactly for a one-element input; otherwise it has the input's length |
| Smoothing.MeanBounds | app/src/main/java/com/example/breathedetection_test/MainActivity.kt:237 | the average of values in `[lo, hi]` lies in `[lo, hi]` |
| Smoothing.SmoothInterior | app/src/main/java/com/example/breathedetection_test/MainActivity.kt:234-237 | an interior output is the mean of the six inputs `i-3 .. i+2` |
| Smoothing.SmoothStart | app/src/main/java/com/example/breathedetection_test/MainActivity.kt:234-237 | each of the first three outputs, other than the last output, is the mean of `values[0 .. min(n-1, i+3))` |
| Smoothing.SmoothEnd | app/src/main/java/com/example/breathedetection_test/MainActivity.kt:234-237 | an output with `3 <= i < n-1` whose window is cut by the end is the mean of `values[i-3 .. n-1)` |
| Smoothing.SmoothLast | app/src/main/java/com/example/breathedetection_test/MainActivity.kt:234-237 | the last output is the mean of up to three inputs before it and excludes the last input |
| Smoothing.SmoothWithinBounds | app/src/main/java/com/example/breathedetection_test/MainActivity.kt:234-238 | when every input lies in `[lo, hi]`, so does every smoothed value |
| Smoothing.SmoothConstant | app/src/main/java/com/example/breathedetection_test/MainActivity.kt:234-238 | a constant input of length other than one smooths to itself |
| Peaks.IsPeak | app/src/main/java/com/example/breathedetection_test/MainActivity.kt:244-247 | a peak is an interior index, and neither neighbour can be a peak, because each neighbour fails its own comparison with the peak |
| Peaks.PeaksFrom | app/src/main/java/com/example/breathedetection_test/MainActivity.kt:243-248 | filtering indices from `i` on returns exactly the peaks at or after `i`, strictly increasing |
| Peaks.FindPeaks | app/src/main/java/com/example/breathedetection_test/MainActivity.kt:241-249 | every returned index is a peak, every peak is returned, and the result is strictly increasing |
| Peaks.FindPeaksExact | app/src/main/java/com/example/breathedetection_test/MainActivity.kt:244-247 | `j` is returned if and only if `0 < j < n-1` and its value is strictly above both neighbours and above `0.5`; index 0 and index `n-1` are never returned |
| Peaks.PeaksSpaced | app/src/main/java/com/example/breathedetection_test/MainActivity.kt:245-246 | consecutive peaks are at least two indices apart |
| Peaks.ConstantHasNoPeaks | app/src/main/java/com/example/breathedetection_test/MainActivity.kt:245-246 | under strict comparison a constant series has no peaks |
| Peaks.LowSeriesHasNoPeaks | app/src/main/java/com/example/breathedetection_test/MainActivity.kt:241-249 | a series never above the threshold `0.5` has no peaks |
| Peaks.ShortSeriesHasNoPeaks | app/src/main/java/com/example/breathedetection_test/MainActivity.kt:244 | a series of fewer than three values has no peaks |
| Rate.Diffs | app/src/main/java/com/example/breathedetection_test/MainActivity.kt:225 | the consecutive differences of `k > 0` indices number `k-1`; their contents are stated by `Rate.DiffsElements` |
| Rate.DiffsElements | app/src/main/java/com/example/breathedetection_test/MainActivity.kt:225 | element `k` of the differences is `p[k+1] - p[k]`, as `zipWithNext { a, b -> b - a }` computes |
| Rate.DiffsTelescope | app/src/main/java/com/example/breathedetection_test/MainActivity.kt:225 | the consecutive differences of the peaks sum to last peak minus first peak |
| Rate.RateFromPeaks | app/src/main/java/com/example/breathedetection_test/MainActivity.kt:224-229 | no peaks gives `0.0`; the rate is NaN if and only if there is exactly one peak; two or more peaks give a positive rate |
| Rate.RateClosedForm | app/src/main/java/com/example/breathedetection_test/MainActivity.kt:225-226 | with `k >= 2` peaks the rate is `60 (k-1) / (last - first)`, i.e. the average period is `(last - first)/(k-1)` |
| Rate.RateBounded | app/src/main/java/com/example/breathedetection_test/MainActivity.kt:225-226 | peaks at least two apart give an average period of at least 2 and a rate in `(0, 30]` |
| Rate.BreathingRate | app/src/main/java/com/example/breathedetection_test/MainActivity.kt:215-230 | fewer than three samples give `0.0`; any defined estimate lies in `[0, 30]` |
| Rate.BreathingRateUndefined | app/src/main/java/com/example/breathedetection_test/MainActivity.kt:224-226 | the estimate is NaN if and only if the smoothed series has exactly one peak |
| Rate.ConstantSeriesRate | app/src/main/java/com/example/breathedetection_test/MainActivity.kt:215-229 | a constant series yields rate `0.0` |
| Rate.LowSeriesRate | app/src/main/java/com/example/breathedetection_test/MainActivity.kt:215-229 | a series never above the threshold yields rate `0.0` |
| Pipeline.Step | app/src/main/java/com/example/breathedetection_test/MainActivity.kt:185-198 | a face appends exactly its mean and keeps the earlier values; the estimate runs if and only if the list then holds more than 50 values, and otherwise the status branch is taken; no face changes nothing |
| Pipeline.Run | app/src/main/java/com/example/breathedetection_test/MainActivity.kt:177-198 | processing frames one by one never shrinks the list and keeps its earlier values as a prefix |
| Pipeline.RunAppendsFaces | app/src/main/java/com/example/breathedetection_test/MainActivity.kt:177-186 | a run of frames appends exactly the face means, in order, to the collected list |
| Pipeline.FirstEstimateAtFiftyFirstFace | app/src/main/java/com/example/breathedetection_test/MainActivity.kt:186-198 | starting empty, the first 50 faces show only the status message and every later face yields an estimate |

## Left out

- Camera setup, preview and analyzer binding, and the YUV to JPEG to bitmap conversion. These are platform I/O and image codecs.
- The OpenCV work: grayscale, flip, equalisation, resize, rotation, cascade face detection, cropping and channel extraction. These are foreign library calls. The green mean of a frame is an opaque `real`, and a frame without a face is `None`.
- The "face detector not initialised" branch. It logs and changes nothing, the same as a frame without a face.
- Debug image writes, cascade file copying, permissions and toasts. These are file I/O and the Android lifecycle.
- The UI-thread text updates, the `%.2f` formatting and the single-thread executor. `Pipeline.Shown` records only which branch is taken.
- IEEE `Double` rounding, infinities and NaN propagation. Values are exact reals, and the two NaN cases are `None`.
- Smoothing.Smooth: for a one-element input the source returns a list holding one NaN. The model returns `None` and does not keep that list's length.
- Rate.RateFromPeaks: it requires strictly increasing peaks. Its only caller passes the peak finder's output, which always meets this. For other input the source's `60 / avg` could divide by zero or go negative, and that is not modelled.
- Kotlin `Int` overflow of indices and differences. List sizes stay far below `2^31`, so indices are unbounded integers.
