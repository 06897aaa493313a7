# Detection stabiliser

This project models the stabilisation step of the webcam object-detection
app, `processDetections` in `components/ObjectDetection.tsx`. On each
inference tick the detection model hands over a batch of raw predictions.
Each prediction has a class label, a score in [0, 1] and a bbox
`[x, y, width, height]`. For every prediction, in batch order, the step:

- rounds the score to a percentage with `Math.round`;
- creates the class's history on first sight;
- pushes the percentage and the bbox onto the class's two aligned arrays,
  and shifts out the oldest entry once they hold more than 7;
- computes the rounded mean confidence of the window;
- runs the all-pairs jitter check on the top-left corners of the window's
  boxes;
- emits a `StableDetection` when the window holds at least 5 entries, the
  rounded mean exceeds 60 and the jitter check passes.

A stable detection carries the mean confidence, the window length, the
batch's timestamp and the element-wise mean box. Only the per-class windows
persist from one batch to the next. The emitted list replaces the previous
output, and the last-detection time is set to the batch's timestamp.

The project has four modules:

- `Numeric` (`numeric.dfy`): `Math.round` on exact reals (`JsRound`), the
  left-to-right sums behind `reduce((a, b) => a + b, 0)`, means, and the
  rounded mean confidence. The rounded mean's contract is stated in
  integers, without division.
- `Boxes` (`boxes.dfy`): the bbox record and the nested `every` jitter
  check, which is proved equal to "every pair of boxes in the window is
  close". Also the element-wise average box.
- `History` (`history.dfy`): a class's window, with the bounded FIFO
  `Slide` (push, then shift past 7) and its well-formedness invariant.
- `Stabilization` (`stabilization.dfy`): the batch step in two forms.
  - The specification: `Evaluate` is the stability decision. `Advance` and
    `Report` cover one prediction, and `Replay` and `Reports` fold them over
    a batch.
  - The imperative engine: class `Stabilizer` holds the history map and the
    last-detection time as fields. `Observe` is the body of the `forEach`,
    updating the map in place. `ProcessBatch` is the loop over the batch and
    is proved to produce exactly `Replay` and `Reports`.
  - The lemmas about the specification.

Scores and coordinates are exact `real`s. `Date.now()` is the parameter
`now`.

Two behaviours of the code worth knowing:

- **Rounding.** `Math.round` rounds halves towards +infinity, i.e.
  `floor(x + 1/2)`. This is how `JsRound` is defined. For the non-negative
  scores and confidences that occur here, it agrees with rounding halves
  away from zero.
- **First sighting.** A class seen for the first time is not always
  unreported in that call. The window grows once per prediction, not once
  per batch. So a class that was unknown when the batch began, and appears
  five times in that one batch with a high enough score and with boxes
  within 50 px of each other in x and y, is reported at its fifth
  appearance. `SameBatchSightings` proves this for five identical
  sightings.
  - What does hold: one prediction of a class that has no window is never
    reported (`FirstSightingNotReported`).
  - A class is reported only once its old window plus its sightings in the
    batch reach five (`ReportNeedsMinFrames`).

## Model

| member | source | states |
|---|---|---|
| `Numeric.JsRound` | components/ObjectDetection.tsx:59 | `Math.round` yields the integer `k` with `k - 1/2 <= r < k + 1/2`, so halves go up |
| `Numeric.RoundedMean` | components/ObjectDetection.tsx:82-85 | `Math.round(sum / length)` of a non-empty window is the integer `m` with `(2m - 1)·n <= 2·sum < (2m + 1)·n` |
| `Numeric.RoundedMeanFormula` | components/ObjectDetection.tsx:82-85 | the rounded mean equals the all-integer formula `(2·sum + n) / (2·n)` |
| `Numeric.RoundedMeanAbove` | components/ObjectDetection.tsx:82-99 | the rounded mean exceeds a threshold `t` exactly when `2·sum >= (2t + 1)·n`, both directions |
| `Numeric.RoundedMeanConstant` | components/ObjectDetection.tsx:82-85 | a window of equal confidences has that confidence as its rounded mean |
| `Numeric.SumIntAppend` | components/ObjectDetection.tsx:83 | the confidence sum of a concatenation is the sum of the parts |
| `Numeric.SumIntConstant` | components/ObjectDetection.tsx:83 | `n` equal values `v` sum to `n·v` |
| `Numeric.MeanBounds` | components/ObjectDetection.tsx:104-106 | the mean of a non-empty list lies between any lower and upper bound of its terms |
| `Numeric.MeanStrictBounds` | components/ObjectDetection.tsx:104-106 | the mean lies strictly inside any open interval holding every term |
| `Boxes.CloseToAllIff` | components/ObjectDetection.tsx:90-93 | the inner `every` over `slice(0, index)` holds exactly when every earlier box is within the jitter bound of the current one |
| `Boxes.ConsistentFromIff` | components/ObjectDetection.tsx:88-94 | the outer `every` from index `i` on holds exactly when every box at index `k >= i` is close to all boxes before it |
| `Boxes.ConsistentIff` | components/ObjectDetection.tsx:88-94 | the jitter check passes exactly when every pair `j < i` has `abs(dx) < 50` and `abs(dy) < 50`; width and height play no part |
| `Boxes.CloseSymmetric` | components/ObjectDetection.tsx:91-92 | closeness of two boxes does not depend on their order |
| `Boxes.AvgBoxWithin` | components/ObjectDetection.tsx:104-106 | each coordinate of the average box lies between the smallest and largest value of that coordinate in the window |
| `Boxes.AvgBoxConstant` | components/ObjectDetection.tsx:104-106 | a window of identical boxes averages to that box |
| `Boxes.AvgBoxNearEveryBox` | components/ObjectDetection.tsx:88-106 | in a window that passes the jitter check, the average box is itself within the jitter bound of every box of the window |
| `Boxes.AvgBoxExample` | components/ObjectDetection.tsx:104-106 | `[[0,0,10,10],[10,10,10,10]]` averages to `[5,5,10,10]` |
| `History.RecentAppend` | components/ObjectDetection.tsx:72-79 | trimming to the last 7 and then appending and trimming again equals appending and trimming once |
| `History.Slide` | components/ObjectDetection.tsx:72-79 | push-then-shift keeps the window aligned and at most 7 long, and leaves exactly the last 7 of old window plus new entry |
| `History.SlideFifo` | components/ObjectDetection.tsx:72-79 | the new entry is last; the window grows by one until 7 and then drops exactly its oldest entry, in both the confidences and the boxes |
| `History.SlideCopies` | components/ObjectDetection.tsx:72-79 | sliding an entry into a window of its own copies adds one copy, up to 7 |
| `Stabilization.Evaluate` | components/ObjectDetection.tsx:82-114 | a window yields a detection iff it holds at least 5 entries, `2·sum >= 121·n` (rounded mean above 60) and all pairs are close; the detection carries the class, rounded mean, window length, timestamp and average box |
| `Stabilization.Advance` | components/ObjectDetection.tsx:61-79 | recording one prediction keeps every window well formed |
| `Stabilization.Replay` | components/ObjectDetection.tsx:57-79 | after any batch, every class's `confidences` and `bboxes` have equal length, at most 7 |
| `Stabilization.Report` | components/ObjectDetection.tsx:102-114 | one prediction emits at most one detection |
| `Stabilization.Reports` | components/ObjectDetection.tsx:57-116 | a batch emits at most one detection per prediction |
| `Stabilization.ReplayWindow` | components/ObjectDetection.tsx:57-79 | after a batch, each class's window is the last 7 of its old window followed by its sightings in the batch, in batch order |
| `Stabilization.ReplaySplit` | components/ObjectDetection.tsx:57-79 | processing `a` and then `b` leaves the same histories as processing `a + b` |
| `Stabilization.BatchSplit` | components/ObjectDetection.tsx:57-116 | processing `a` then `b` also reports the same detections, in the same order, as processing `a + b` |
| `Stabilization.WindowLength` | components/ObjectDetection.tsx:72-79 | a window's length is its old length plus its sightings, saturating at 7 |
| `Stabilization.ReplayKeys` | components/ObjectDetection.tsx:62-67 | a class has a history after a batch iff it had one before or the batch names it |
| `Stabilization.UntouchedClass` | components/ObjectDetection.tsx:57-79 | a class the batch does not name keeps its window unchanged |
| `Stabilization.EmptyBatch` | components/ObjectDetection.tsx:47-57 | an empty batch emits nothing and changes no history |
| `Stabilization.ReportsPrefix` | components/ObjectDetection.tsx:102-115 | the output of the first `i` predictions is a prefix of the whole output: later predictions only append |
| `Stabilization.ReportFields` | components/ObjectDetection.tsx:108-114 | what one prediction emits names its class, carries the batch time and a count between 5 and 7 |
| `Stabilization.ReportedRecords` | components/ObjectDetection.tsx:57-115 | every emitted detection names a class of the batch, carries the batch's timestamp and a count between 5 and 7 |
| `Stabilization.CountOfAppend` | components/ObjectDetection.tsx:108 | per-class counts of emitted detections add up over concatenation |
| `Stabilization.ReportsPerClass` | components/ObjectDetection.tsx:57-115 | a class named `k` times in a batch is emitted at most `k` times |
| `Stabilization.ReportNeedsMinFrames` | components/ObjectDetection.tsx:97-100 | a class whose old window length plus sightings in the batch is below 5 is not emitted |
| `Stabilization.FirstSightingNotReported` | components/ObjectDetection.tsx:62-100 | a prediction of a class with no history is not emitted |
| `Stabilization.ConfidenceBoundary` | components/ObjectDetection.tsx:97-100 | a mean of exactly 60 is rejected, 61 is accepted, and 60.5 rounds up and is accepted |
| `Stabilization.JitterBoundary` | components/ObjectDetection.tsx:88-100 | a box 60 px away in x is rejected, 10 px is accepted, and a different width and height is accepted |
| `Stabilization.SinglePrediction` | components/ObjectDetection.tsx:57-79 | a one-prediction batch slides that class's window, and emits nothing while the window stays below 5 |
| `Stabilization.RepeatedSighting` | components/ObjectDetection.tsx:59-114 | a window of `k` copies of a sighting above 60 becomes `min(k + 1, 7)` copies, and emits that confidence and box once it reaches 5 |
| `Stabilization.SteadyWindowStable` | components/ObjectDetection.tsx:82-114 | 5 to 7 equal confidences above 60 with equal boxes are stable, reported with that confidence and box |
| `Stabilization.CatWarmUp` | components/ObjectDetection.tsx:59-100 | four single-cat batches at score 0.95 emit nothing and leave four copies of `(95, [0,0,10,10])` |
| `Stabilization.CatScenario` | components/ObjectDetection.tsx:59-114 | five single-cat batches at score 0.95 emit nothing four times, then exactly one detection: confidence 95, count 5, bbox `[0,0,10,10]` |
| `Stabilization.SameBatchWindow` | components/ObjectDetection.tsx:57-79 | a new class sighted `k <= 7` times in one batch ends with `k` copies of that sighting |
| `Stabilization.SameBatchSightings` | components/ObjectDetection.tsx:57-114 | a new class sighted 5 times in one batch with identical boxes and a score above 60 is emitted on its fifth sighting in that same batch, and not before |
| `Stabilization.Stabilizer.constructor` | components/ObjectDetection.tsx:35-39 | the engine starts with no histories and the given time |
| `Stabilization.Stabilizer.Observe` | components/ObjectDetection.tsx:57-115 | the in-place lazy insert, push and shift leave the map equal to `Advance`, and the inline test emits exactly `Report` |
| `Stabilization.Stabilizer.ProcessBatch` | components/ObjectDetection.tsx:45-125 | the loop keeps every window well formed, leaves the map equal to `Replay` of the batch, returns exactly `Reports`, and stamps the batch's time |

## Left out

- Model loading, webcam access, the `detect` call and canvas drawing
  (`setupDetection`, `startWebcam`, `detectObjects`): asynchronous foreign
  I/O. A batch of predictions is an input to `ProcessBatch`.
- The `setInterval` cadence and the React `useEffect`/`setState` wiring: the
  `setState` that replaces the shown detections is the value `ProcessBatch`
  returns.
- JSX rendering, `ParticleBackground` and the Next.js layout: UI only.
- IEEE double arithmetic: scores, sums and box coordinates are exact reals.
  So `score * 100`, the confidence mean and the box mean are the exact
  values, not their float roundings.
- `Date.now()`: the parameter `now`.
- JavaScript object keys: the history is a `map` from class label to window.
  A label such as `"constructor"` that collides with an inherited property
  of a plain object is not modelled.
- Bboxes of other than four numbers: a bbox is a four-field record.
- Stale windows: classes not seen for a long time keep their windows
  forever, as in the code. No expiry is modelled because none exists.
- `History.Recent`: its contract states only the length of the kept suffix.
  The suffix itself is given by its body and used through `RecentAppend` and
  `Slide`.
