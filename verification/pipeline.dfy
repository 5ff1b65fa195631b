/** The accumulate-and-trigger step of the frame analyzer (`processFrame`,
    after face detection): a frame either carries the green-channel mean of
    the detected face or nothing (no face). A mean is appended to the
    ever-growing series; once the series holds more than fifty values every
    append re-runs the estimator over the whole series, before that a status
    message is shown instead. */
module Pipeline {
  import opened Wrappers
  import opened Rate

  /** The estimator runs only when the series is LONGER than this. */
  const EstimateAfter: nat := 50

  /** What the step puts on screen: nothing new (no face found), a status
      message (a face was found but the series holds at most fifty values),
      or a rate estimate (NaN as `None`). The status message the app shows in
      the second case reads "no face detected", although a face was found;
      the model records only which branch is taken. */
  datatype Shown = Unchanged | Collecting | Estimate(rate: Option<real>)

  datatype StepResult = StepResult(values: seq<real>, shown: Shown)

  /** Process one frame. `frame` is the face's green mean, or `None` when no
      face was found. */
  function Step(values: seq<real>, frame: Option<real>): (r: StepResult)
    ensures frame.None? ==> r == StepResult(values, Unchanged)
    ensures frame.Some? ==> |r.values| == |values| + 1
    ensures frame.Some? ==> r.values[..|values|] == values
    ensures frame.Some? ==> r.values[|values|] == frame.value
    ensures frame.Some? ==> (r.shown.Estimate? <==> |values| >= EstimateAfter)
    ensures frame.Some? ==> (r.shown == Collecting <==> |values| < EstimateAfter)
    ensures r.shown.Estimate? ==> r.shown.rate == BreathingRate(r.values)
  {
    match frame
    case None => StepResult(values, Unchanged)
    case Some(mean) =>
      var values' := values + [mean];
      if |values'| > EstimateAfter then StepResult(values', Estimate(BreathingRate(values')))
      else StepResult(values', Collecting)
  }

  /** The face means carried by a run of frames, in order. */
  function Faces(frames: seq<Option<real>>): seq<real>
  {
    if |frames| == 0 then []
    else (if frames[0].Some? then [frames[0].value] else []) + Faces(frames[1..])
  }

  /** The series after processing a run of frames one by one. */
  function Run(values: seq<real>, frames: seq<Option<real>>): (r: seq<real>)
    ensures |r| >= |values|
    ensures r[..|values|] == values
    decreases |frames|
  {
    if |frames| == 0 then values else Run(Step(values, frames[0]).values, frames[1..])
  }

  /** Processing a run of frames appends exactly the face means, in arrival
      order, and never changes what was already collected. */
  lemma {:induction false} RunAppendsFaces(values: seq<real>, frames: seq<Option<real>>)
    ensures Run(values, frames) == values + Faces(frames)
    decreases |frames|
  {
    if |frames| > 0 {
      var next := Step(values, frames[0]).values;
      RunAppendsFaces(next, frames[1..]);
      if frames[0].Some? {
        assert next == values + [frames[0].value];
      }
    }
  }

  /** Starting from an empty series, the step for the `n`-th detected face
      estimates exactly when `n > 50`: the first fifty faces only show the
      status message. */
  lemma FirstEstimateAtFiftyFirstFace(frames: seq<Option<real>>, mean: real)
    ensures var r := Step(Run([], frames), Some(mean));
            r.shown.Estimate? <==> |Faces(frames)| + 1 > EstimateAfter
  {
    RunAppendsFaces([], frames);
  }
}
