/**
 The detection stabiliser: one batch of raw predictions at a time, it records
 each sighting in its class's window and reports the classes whose window is
 long enough, confident enough and free of jitter.

 `Advance`/`Report` specify one prediction and `Replay`/`Reports` one batch as
 functions of the histories; `Stabilizer.ProcessBatch` is the in-place loop,
 proved equal to them.
 */
module Stabilization {
  import opened Numeric
  import opened Boxes
  import opened History

  datatype Option<T> = None | Some(value: T)

  /** One raw prediction of the detection model: label, score in [0, 1], bbox. */
  datatype Prediction = Prediction(cls: string, score: real, bbox: Box)

  /** A detection judged stable enough to display. */
  datatype StableDetection = StableDetection(
    cls: string,
    confidence: int,
    detectionCount: nat,
    lastDetected: int,
    bbox: Box)

  /** Fewest sightings in a window before a class can be reported. */
  const MinFrames: nat := 5

  /** The rounded mean confidence must exceed this percentage. */
  const MinConfidence: int := 60

  /** A score as a rounded percentage, `Math.round(score * 100)`. */
  function Percent(score: real): int
  {
    JsRound(score * 100.0)
  }

  /** The stability decision on a class's window just after a sighting. */
  function Evaluate(cls: string, h: ClassHistory, now: int): (d: Option<StableDetection>)
    requires WellFormed(h)
    ensures d.Some? <==>
      && |h.confidences| >= MinFrames
      && 2 * SumInt(h.confidences) >= (2 * MinConfidence + 1) * |h.confidences|
      && AllPairsClose(h.bboxes)
    ensures d.Some? ==>
      && d.value.cls == cls
      && d.value.confidence == RoundedMean(h.confidences)
      && d.value.detectionCount == |h.confidences|
      && d.value.lastDetected == now
      && d.value.bbox == AvgBox(h.bboxes)
  {
    ConsistentIff(h.bboxes);
    if |h.confidences| < MinFrames then None
    else
      RoundedMeanAbove(h.confidences, MinConfidence);
      if RoundedMean(h.confidences) > MinConfidence && Consistent(h.bboxes) then
        Some(StableDetection(cls, RoundedMean(h.confidences), |h.confidences|, now, AvgBox(h.bboxes)))
      else
        None
  }

  /** Record one prediction in its class's window, creating the window on
      first sight; every other class keeps its window. */
  function Advance(m: Histories, p: Prediction): (m': Histories)
    requires AllWellFormed(m)
    ensures AllWellFormed(m')
  {
    m[p.cls := Slide(Lookup(m, p.cls), Percent(p.score), p.bbox)]
  }

  /** The histories after a batch, prediction by prediction in batch order. */
  function Replay(m: Histories, preds: seq<Prediction>): (m': Histories)
    requires AllWellFormed(m)
    ensures AllWellFormed(m')
  {
    if preds == [] then m else Advance(Replay(m, preds[..|preds| - 1]), preds[|preds| - 1])
  }

  /** What one prediction reports: its class's window after the sighting is
      judged, giving at most one detection. */
  function Report(m: Histories, p: Prediction, now: int): (out: seq<StableDetection>)
    requires AllWellFormed(m)
    ensures |out| <= 1
  {
    var d := Evaluate(p.cls, Advance(m, p)[p.cls], now);
    if d.Some? then [d.value] else []
  }

  /** Whether a batch names class `c`. */
  predicate Names(preds: seq<Prediction>, c: string)
  {
    preds != [] && (preds[|preds| - 1].cls == c || Names(preds[..|preds| - 1], c))
  }

  /** What a batch reports: each prediction's report, in batch order. */
  function Reports(m: Histories, preds: seq<Prediction>, now: int): (out: seq<StableDetection>)
    requires AllWellFormed(m)
    ensures |out| <= |preds|
  {
    if preds == [] then []
    else
      var init := preds[..|preds| - 1];
      Reports(m, init, now) + Report(Replay(m, init), preds[|preds| - 1], now)
  }

  /** The confidences recorded for class `c` by a batch, in batch order. */
  function Sightings(preds: seq<Prediction>, c: string): seq<int>
  {
    if preds == [] then []
    else
      var p := preds[|preds| - 1];
      Sightings(preds[..|preds| - 1], c) + if p.cls == c then [Percent(p.score)] else []
  }

  /** The bboxes recorded for class `c` by a batch, in batch order. */
  function SightedBoxes(preds: seq<Prediction>, c: string): seq<Box>
  {
    if preds == [] then []
    else
      var p := preds[|preds| - 1];
      SightedBoxes(preds[..|preds| - 1], c) + if p.cls == c then [p.bbox] else []
  }

  /** After a batch, every class's window is the most recent `WindowSize`
      entries of its old window followed by its sightings in the batch. */
  lemma {:induction false} ReplayWindow(m: Histories, preds: seq<Prediction>, c: string)
    requires AllWellFormed(m)
    ensures Lookup(Replay(m, preds), c) == ClassHistory(
      Recent(Lookup(m, c).confidences + Sightings(preds, c)),
      Recent(Lookup(m, c).bboxes + SightedBoxes(preds, c)))
  {
    var h0 := Lookup(m, c);
    if preds == [] {
      assert c in m ==> WellFormed(m[c]);
      assert h0.confidences + [] == h0.confidences;
      assert h0.bboxes + [] == h0.bboxes;
    } else {
      var init := preds[..|preds| - 1];
      var p := preds[|preds| - 1];
      ReplayWindow(m, init, c);
      if p.cls == c {
        var cs := h0.confidences + Sightings(init, c);
        var bs := h0.bboxes + SightedBoxes(init, c);
        RecentAppend(cs, Percent(p.score));
        RecentAppend(bs, p.bbox);
        assert Sightings(preds, c) == Sightings(init, c) + [Percent(p.score)];
        assert SightedBoxes(preds, c) == SightedBoxes(init, c) + [p.bbox];
        SeqAssoc(h0.confidences, Sightings(init, c), [Percent(p.score)]);
        SeqAssoc(h0.bboxes, SightedBoxes(init, c), [p.bbox]);
      } else {
        assert Sightings(preds, c) == Sightings(init, c);
        assert SightedBoxes(preds, c) == SightedBoxes(init, c);
      }
    }
  }

  lemma SlicePrefix<T>(s: seq<T>, i: nat, j: nat)
    requires i <= j <= |s|
    ensures s[..j][..i] == s[..i]
  {
  }

  lemma PrefixAppend<T>(a: seq<T>, b: seq<T>, c: seq<T>)
    requires a <= b
    ensures a <= b + c
  {
  }

  lemma SeqAssoc<T>(a: seq<T>, b: seq<T>, c: seq<T>)
    ensures (a + b) + c == a + (b + c)
  {
  }

  /** Extending a batch by one prediction extends the replay and the report
      by that prediction's step. */
  lemma ReplayStep(m: Histories, preds: seq<Prediction>, i: nat, now: int)
    requires AllWellFormed(m)
    requires i < |preds|
    ensures Replay(m, preds[..i + 1]) == Advance(Replay(m, preds[..i]), preds[i])
    ensures Reports(m, preds[..i + 1], now) == Reports(m, preds[..i], now) + Report(Replay(m, preds[..i]), preds[i], now)
  {
    assert preds[..i + 1][..i] == preds[..i];
  }

  /** A batch split in two: processing `a` then `b` leaves the same histories
      as processing `a + b`. */
  lemma {:induction false} ReplaySplit(m: Histories, a: seq<Prediction>, b: seq<Prediction>)
    requires AllWellFormed(m)
    ensures Replay(m, a + b) == Replay(Replay(m, a), b)
    decreases |b|
  {
    if b == [] {
      assert a + b == a;
    } else {
      ReplaySplit(m, a, b[..|b| - 1]);
      AppendInit(a, b);
    }
  }

  /** A batch split in two reports the same detections in the same order as
      the whole batch. */
  lemma {:induction false} BatchSplit(m: Histories, a: seq<Prediction>, b: seq<Prediction>, now: int)
    requires AllWellFormed(m)
    ensures Replay(m, a + b) == Replay(Replay(m, a), b)
    ensures Reports(m, a + b, now) == Reports(m, a, now) + Reports(Replay(m, a), b, now)
    decreases |b|
  {
    ReplaySplit(m, a, b);
    if b == [] {
      assert a + b == a;
    } else {
      var init, p := b[..|b| - 1], b[|b| - 1];
      BatchSplit(m, a, init, now);
      AppendInit(a, b);
      var ma := Replay(m, a);
      var last := Report(Replay(ma, init), p, now);
      assert Reports(m, a + b, now) == Reports(m, a + init, now) + last;
      SeqAssoc(Reports(m, a, now), Reports(ma, init, now), last);
    }
  }

  lemma AppendInit<T>(a: seq<T>, b: seq<T>)
    requires b != []
    ensures (a + b)[..|a + b| - 1] == a + b[..|b| - 1]
    ensures (a + b)[|a + b| - 1] == b[|b| - 1]
  {
  }

  /** A window grows by one per sighting and saturates at `WindowSize`. */
  lemma WindowLength(m: Histories, preds: seq<Prediction>, c: string)
    requires AllWellFormed(m)
    ensures var n := |Lookup(m, c).confidences| + |Sightings(preds, c)|;
      |Lookup(Replay(m, preds), c).confidences| == if n <= WindowSize then n else WindowSize
  {
    ReplayWindow(m, preds, c);
  }

  /** A batch creates histories only for the classes it names. */
  lemma {:induction false} ReplayKeys(m: Histories, preds: seq<Prediction>, c: string)
    requires AllWellFormed(m)
    ensures c in Replay(m, preds) <==> c in m || Names(preds, c)
  {
    if preds != [] {
      ReplayKeys(m, preds[..|preds| - 1], c);
    }
  }

  /** A batch that does not name class `c` leaves its window exactly as it was. */
  lemma {:induction false} UntouchedClass(m: Histories, preds: seq<Prediction>, c: string)
    requires AllWellFormed(m)
    requires !Names(preds, c)
    ensures Lookup(Replay(m, preds), c) == Lookup(m, c)
  {
    if preds != [] {
      UntouchedClass(m, preds[..|preds| - 1], c);
    }
  }

  /** An empty batch reports nothing and changes no history. */
  lemma EmptyBatch(m: Histories, now: int)
    requires AllWellFormed(m)
    ensures Replay(m, []) == m && Reports(m, [], now) == []
  {
  }

  /** The reports of the first `i` predictions come first, in batch order:
      later predictions only append. */
  lemma {:induction false} ReportsPrefix(m: Histories, preds: seq<Prediction>, i: nat, now: int)
    requires AllWellFormed(m)
    requires i <= |preds|
    ensures Reports(m, preds[..i], now) <= Reports(m, preds, now)
    decreases |preds|
  {
    if i == |preds| {
      assert preds[..i] == preds;
    } else {
      var init := preds[..|preds| - 1];
      ReportsPrefix(m, init, i, now);
      SlicePrefix(preds, i, |preds| - 1);
      var last := Report(Replay(m, init), preds[|preds| - 1], now);
      assert Reports(m, preds, now) == Reports(m, init, now) + last;
      PrefixAppend(Reports(m, preds[..i], now), Reports(m, init, now), last);
    }
  }

  /** What one prediction reports carries its class, the batch's timestamp and
      a count between `MinFrames` and `WindowSize`. */
  lemma ReportFields(m: Histories, p: Prediction, now: int)
    requires AllWellFormed(m)
    ensures forall d :: d in Report(m, p, now) ==>
      && d.cls == p.cls
      && d.lastDetected == now
      && MinFrames <= d.detectionCount <= WindowSize
  {
    var w := Advance(m, p)[p.cls];
    assert WellFormed(w);
  }

  /** Every reported detection names a class of the batch, carries the batch's
      timestamp, and counts between `MinFrames` and `WindowSize` sightings. */
  lemma {:induction false} ReportedRecords(m: Histories, preds: seq<Prediction>, now: int)
    requires AllWellFormed(m)
    ensures forall d :: d in Reports(m, preds, now) ==>
      && Names(preds, d.cls)
      && d.lastDetected == now
      && MinFrames <= d.detectionCount <= WindowSize
  {
    if preds != [] {
      var init, p := preds[..|preds| - 1], preds[|preds| - 1];
      ReportedRecords(m, init, now);
      var last := Report(Replay(m, init), p, now);
      ReportFields(Replay(m, init), p, now);
      assert Reports(m, preds, now) == Reports(m, init, now) + last;
      forall d | d in Reports(m, preds, now)
        ensures Names(preds, d.cls)
      {
        if d in last {
          assert d.cls == p.cls;
        } else {
          assert Names(init, d.cls);
        }
      }
    }
  }

  /** The number of reported detections of class `c`. */
  function CountOf(out: seq<StableDetection>, c: string): nat
  {
    if out == [] then 0
    else CountOf(out[..|out| - 1], c) + if out[|out| - 1].cls == c then 1 else 0
  }

  lemma {:induction false} CountOfAppend(a: seq<StableDetection>, b: seq<StableDetection>, c: string)
    ensures CountOf(a + b, c) == CountOf(a, c) + CountOf(b, c)
    decreases |b|
  {
    if b == [] {
      assert a + b == a;
    } else {
      CountOfAppend(a, b[..|b| - 1], c);
      assert (a + b)[..|a + b| - 1] == a + b[..|b| - 1];
    }
  }

  /** A class named `k` times in a batch is reported at most `k` times. */
  lemma {:induction false} ReportsPerClass(m: Histories, preds: seq<Prediction>, now: int, c: string)
    requires AllWellFormed(m)
    ensures CountOf(Reports(m, preds, now), c) <= |Sightings(preds, c)|
  {
    if preds != [] {
      var init := preds[..|preds| - 1];
      var p := preds[|preds| - 1];
      var last := Report(Replay(m, init), p, now);
      ReportsPerClass(m, init, now, c);
      CountOfAppend(Reports(m, init, now), last, c);
      if last != [] {
        assert last == [last[0]] && last[0].cls == p.cls;
        assert last[..0] == [];
      }
    }
  }

  /** A class reported by a batch was sighted at least `MinFrames` times since
      its history began. */
  lemma {:induction false} ReportNeedsMinFrames(m: Histories, preds: seq<Prediction>, now: int, c: string)
    requires AllWellFormed(m)
    requires |Lookup(m, c).confidences| + |Sightings(preds, c)| < MinFrames
    ensures forall d :: d in Reports(m, preds, now) ==> d.cls != c
  {
    if preds != [] {
      var init := preds[..|preds| - 1];
      var p := preds[|preds| - 1];
      ReportNeedsMinFrames(m, init, now, c);
      if p.cls == c {
        WindowLength(m, preds, c);
      }
    }
  }

  /** The first sighting of a class is never reported. */
  lemma FirstSightingNotReported(m: Histories, p: Prediction, now: int)
    requires AllWellFormed(m)
    requires p.cls !in m
    ensures Report(m, p, now) == []
  {
    assert Lookup(m, p.cls) == Empty;
  }

  /** The rounded mean must exceed 60: a window averaging exactly 60 is not
      stable, one averaging 61 is, and so is one averaging 60.5, which rounds up. */
  lemma ConfidenceBoundary(cls: string, b: Box, now: int)
    ensures Evaluate(cls, ClassHistory([60, 60, 60, 60, 60], [b, b, b, b, b]), now).None?
    ensures Evaluate(cls, ClassHistory([61, 61, 61, 61, 61], [b, b, b, b, b]), now).Some?
    ensures Evaluate(cls, ClassHistory([60, 60, 60, 61, 61, 61], [b, b, b, b, b, b]), now).Some?
  {
    var bs5, bs6 := [b, b, b, b, b], [b, b, b, b, b, b];
    assert AllPairsClose(bs5) && AllPairsClose(bs6);
    SumIntConstant([60, 60, 60, 60, 60], 60);
    SumIntConstant([61, 61, 61, 61, 61], 61);
    SumIntConstant([60, 60, 60], 60);
    SumIntConstant([61, 61, 61], 61);
    SumIntAppend([60, 60, 60], [61, 61, 61]);
    assert [60, 60, 60] + [61, 61, 61] == [60, 60, 60, 61, 61, 61];
  }

  /** The jitter check: a window whose x coordinates differ by 60 pixels is
      rejected, one differing by 10 is accepted, and differing widths and
      heights do not matter. */
  lemma JitterBoundary(cls: string, now: int)
    ensures var b := Box(0.0, 0.0, 10.0, 10.0);
      Evaluate(cls, ClassHistory([90, 90, 90, 90, 90], [b, b, b, b, Box(60.0, 0.0, 10.0, 10.0)]), now).None?
    ensures var b := Box(0.0, 0.0, 10.0, 10.0);
      Evaluate(cls, ClassHistory([90, 90, 90, 90, 90], [b, b, b, b, Box(10.0, 0.0, 10.0, 10.0)]), now).Some?
    ensures var b := Box(0.0, 0.0, 10.0, 10.0);
      Evaluate(cls, ClassHistory([90, 90, 90, 90, 90], [b, b, b, b, Box(0.0, 0.0, 500.0, 900.0)]), now).Some?
  {
    var b := Box(0.0, 0.0, 10.0, 10.0);
    SumIntConstant([90, 90, 90, 90, 90], 90);
    var far := [b, b, b, b, Box(60.0, 0.0, 10.0, 10.0)];
    assert !Close(far[0], far[4]);
    var near := [b, b, b, b, Box(10.0, 0.0, 10.0, 10.0)];
    assert forall j, i :: 0 <= j < i < 5 ==> Close(near[j], near[i]);
    var wide := [b, b, b, b, Box(0.0, 0.0, 500.0, 900.0)];
    assert forall j, i :: 0 <= j < i < 5 ==> Close(wide[j], wide[i]);
  }

  /** A class sighted over and over with the same score and box: once its
      window holds `k` copies, one more sighting leaves `min(k + 1, 7)` copies,
      and from the fifth copy on each sighting reports that score and box,
      provided the score is above the confidence threshold. */
  lemma RepeatedSighting(m: Histories, p: Prediction, now: int, k: nat)
    requires AllWellFormed(m)
    requires k <= WindowSize
    requires Lookup(m, p.cls) == ClassHistory(Copies(Percent(p.score), k), Copies(p.bbox, k))
    requires Percent(p.score) > MinConfidence
    ensures var n := if k < WindowSize then k + 1 else WindowSize;
      Lookup(Replay(m, [p]), p.cls) == ClassHistory(Copies(Percent(p.score), n), Copies(p.bbox, n))
    ensures var n := if k < WindowSize then k + 1 else WindowSize;
      Reports(m, [p], now) == if n < MinFrames then [] else [StableDetection(p.cls, Percent(p.score), n, now, p.bbox)]
  {
    var c := Percent(p.score);
    SinglePrediction(m, p, now);
    SlideCopies(c, p.bbox, k);
    if k + 1 >= MinFrames {
      SteadyWindowStable(p.cls, c, p.bbox, if k < WindowSize then k + 1 else WindowSize, now);
    }
  }

  /** A window of `n >= MinFrames` equal confidences above the threshold and
      equal boxes is stable, reported with that confidence and box. */
  lemma SteadyWindowStable(cls: string, c: int, b: Box, n: nat, now: int)
    requires MinFrames <= n <= WindowSize
    requires c > MinConfidence
    ensures Evaluate(cls, ClassHistory(Copies(c, n), Copies(b, n)), now) == Some(StableDetection(cls, c, n, now, b))
  {
    var w := ClassHistory(Copies(c, n), Copies(b, n));
    RoundedMeanConstant(w.confidences, c);
    SumIntConstant(w.confidences, c);
    RoundedMeanAbove(w.confidences, MinConfidence);
    assert AllPairsClose(w.bboxes);
    AvgBoxConstant(w.bboxes, b);
  }

  /** Five identical sightings of a cat with score 0.95, one batch each,
      report nothing on the first four batches and exactly one detection on
      the fifth: confidence 95, count 5, the same box. `m1`..`m4` are the
      histories after the first four batches. */
  lemma CatScenario(m1: Histories, m2: Histories, m3: Histories, m4: Histories,
                    t1: int, t2: int, t3: int, t4: int, t5: int)
    requires m1 == Replay(map[], [Cat()])
    requires m2 == Replay(m1, [Cat()])
    requires m3 == Replay(m2, [Cat()])
    requires m4 == Replay(m3, [Cat()])
    ensures Reports(map[], [Cat()], t1) == []
    ensures Reports(m1, [Cat()], t2) == []
    ensures Reports(m2, [Cat()], t3) == []
    ensures Reports(m3, [Cat()], t4) == []
    ensures Reports(m4, [Cat()], t5) == [StableDetection("cat", 95, 5, t5, Box(0.0, 0.0, 10.0, 10.0))]
  {
    CatWarmUp(m1, m2, m3, m4, t1, t2, t3, t4);
    RepeatedSighting(m4, Cat(), t5, 4);
  }

  /** The first four batches of the cat scenario: nothing reported, and the
      cat's window holds four copies of the sighting. */
  lemma CatWarmUp(m1: Histories, m2: Histories, m3: Histories, m4: Histories,
                  t1: int, t2: int, t3: int, t4: int)
    requires m1 == Replay(map[], [Cat()])
    requires m2 == Replay(m1, [Cat()])
    requires m3 == Replay(m2, [Cat()])
    requires m4 == Replay(m3, [Cat()])
    ensures Percent(Cat().score) == 95
    ensures Reports(map[], [Cat()], t1) == []
    ensures Reports(m1, [Cat()], t2) == []
    ensures Reports(m2, [Cat()], t3) == []
    ensures Reports(m3, [Cat()], t4) == []
    ensures Lookup(m4, "cat") == ClassHistory(Copies(95, 4), Copies(Cat().bbox, 4))
  {
    var cat := Cat();
    assert Percent(cat.score) == 95;
    var m0: Histories := map[];
    assert Lookup(m0, "cat") == ClassHistory(Copies(95, 0), Copies(cat.bbox, 0));
    RepeatedSighting(m0, cat, t1, 0);
    RepeatedSighting(m1, cat, t2, 1);
    RepeatedSighting(m2, cat, t3, 2);
    RepeatedSighting(m3, cat, t4, 3);
  }

  /** A class never seen before, sighted `k <= WindowSize` times within ONE
      batch with the same score and box, holds `k` copies of that sighting. */
  lemma {:induction false} SameBatchWindow(p: Prediction, k: nat)
    requires k <= WindowSize
    ensures Lookup(Replay(map[], Copies(p, k)), p.cls) == ClassHistory(Copies(Percent(p.score), k), Copies(p.bbox, k))
  {
    var m0: Histories := map[];
    if k == 0 {
      assert Lookup(m0, p.cls) == Empty;
    } else {
      SameBatchWindow(p, k - 1);
      CopiesSnoc(p, k - 1);
      var mk := Replay(m0, Copies(p, k - 1));
      SinglePrediction(mk, p, 0);
      SlideCopies(Percent(p.score), p.bbox, k - 1);
      ReplaySplit(m0, Copies(p, k - 1), [p]);
    }
  }

  /** The same sightings as `SameBatchWindow`, up to `MinFrames` of them:
      nothing is reported until the fifth sighting, which is reported in that
      same batch although the class was unknown when the batch began. */
  lemma {:induction false} SameBatchSightings(p: Prediction, k: nat, now: int)
    requires k <= MinFrames
    requires Percent(p.score) > MinConfidence
    ensures Reports(map[], Copies(p, k), now) ==
      if k < MinFrames then [] else [StableDetection(p.cls, Percent(p.score), MinFrames, now, p.bbox)]
  {
    if k > 0 {
      var m0: Histories := map[];
      SameBatchSightings(p, k - 1, now);
      SameBatchWindow(p, k - 1);
      CopiesSnoc(p, k - 1);
      var mk := Replay(m0, Copies(p, k - 1));
      RepeatedSighting(mk, p, now, k - 1);
      BatchSplit(m0, Copies(p, k - 1), [p], now);
    }
  }

  /** The sighting of the scenario: a cat, score 0.95, box `[0, 0, 10, 10]`. */
  function Cat(): Prediction
  {
    Prediction("cat", 0.95, Box(0.0, 0.0, 10.0, 10.0))
  }

  /** A batch of one prediction is one step: the class's window slides, and
      nothing is reported while the window is shorter than `MinFrames`. */
  lemma SinglePrediction(m: Histories, p: Prediction, now: int)
    requires AllWellFormed(m)
    ensures Lookup(Replay(m, [p]), p.cls) == Slide(Lookup(m, p.cls), Percent(p.score), p.bbox)
    ensures |Lookup(m, p.cls).confidences| + 1 < MinFrames ==> Reports(m, [p], now) == []
    ensures Reports(m, [p], now) == Report(m, p, now)
  {
    assert [p][..0] == [];
  }

  /** The stability test as the loop writes it inline (length, rounded mean,
      jitter) decides exactly what `Report` yields for a prediction. */
  lemma InlineCheck(m: Histories, p: Prediction, now: int)
    requires AllWellFormed(m)
    ensures var w := Advance(m, p)[p.cls];
      Report(m, p, now) ==
        if |w.confidences| >= MinFrames && RoundedMean(w.confidences) > MinConfidence && Consistent(w.bboxes)
        then [StableDetection(p.cls, RoundedMean(w.confidences), |w.confidences|, now, AvgBox(w.bboxes))]
        else []
  {
    var w := Advance(m, p)[p.cls];
    ConsistentIff(w.bboxes);
    if |w.confidences| >= MinFrames {
      RoundedMeanAbove(w.confidences, MinConfidence);
    }
  }

  /** The engine: the per-class histories persist between batches. */
  class Stabilizer {
    var history: Histories
    var lastDetectionTime: int

    ghost predicate Valid()
      reads this
    {
      AllWellFormed(history)
    }

    constructor (now: int)
      ensures Valid()
      ensures history == map[] && lastDetectionTime == now
    {
      history := map[];
      lastDetectionTime := now;
    }

    /** One prediction, in place: push its rounded score and bbox onto its
        class's window (created on first sight), shift out the oldest entry
        past `WindowSize`, and report the class when the window is stable. */
    method Observe(p: Prediction, now: int) returns (found: seq<StableDetection>)
      requires Valid()
      modifies this
      ensures Valid()
      ensures history == Advance(old(history), p)
      ensures found == Report(old(history), p, now)
      ensures lastDetectionTime == old(lastDetectionTime)
    {
      var confidence := Percent(p.score);
      if p.cls !in history {
        history := history[p.cls := ClassHistory([], [])];
      }
      var h := history[p.cls];
      assert h == Lookup(old(history), p.cls);
      var cs := h.confidences + [confidence];
      var bs := h.bboxes + [p.bbox];
      if |cs| > WindowSize {
        cs := cs[1..];
        bs := bs[1..];
      }
      assert ClassHistory(cs, bs) == Slide(h, confidence, p.bbox);
      history := history[p.cls := ClassHistory(cs, bs)];
      assert history == Advance(old(history), p);
      var avg := RoundedMean(cs);
      var consistent := Consistent(bs);
      InlineCheck(old(history), p, now);
      if |cs| >= MinFrames && avg > MinConfidence && consistent {
        found := [StableDetection(p.cls, avg, |cs|, now, AvgBox(bs))];
      } else {
        found := [];
      }
    }

    /** Process one batch in place, prediction by prediction in batch order,
        and stamp the batch's time. */
    method ProcessBatch(preds: seq<Prediction>, now: int) returns (detections: seq<StableDetection>)
      requires Valid()
      modifies this
      ensures Valid()
      ensures history == Replay(old(history), preds)
      ensures detections == Reports(old(history), preds, now)
      ensures lastDetectionTime == now
    {
      detections := [];
      var i := 0;
      while i < |preds|
        invariant 0 <= i <= |preds|
        invariant AllWellFormed(history)
        invariant history == Replay(old(history), preds[..i])
        invariant detections == Reports(old(history), preds[..i], now)
      {
        var found := Observe(preds[i], now);
        detections := detections + found;
        ReplayStep(old(history), preds, i, now);
        i := i + 1;
      }
      assert preds[..i] == preds;
      lastDetectionTime := now;
    }
  }
}
