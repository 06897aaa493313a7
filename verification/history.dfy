/**
 The per-class history: for each class label, the most recent rounded
 confidences and bounding boxes, index-aligned and at most seven long.
 */
module History {
  import opened Boxes

  /** Longest window kept per class. */
  const WindowSize: nat := 7

  datatype ClassHistory = ClassHistory(confidences: seq<int>, bboxes: seq<Box>)

  type Histories = map<string, ClassHistory>

  /** The window invariant: aligned and bounded. */
  predicate WellFormed(h: ClassHistory)
  {
    |h.confidences| == |h.bboxes| <= WindowSize
  }

  predicate AllWellFormed(m: Histories)
  {
    forall c :: c in m ==> WellFormed(m[c])
  }

  /** The history a class starts from on its first sighting. */
  const Empty: ClassHistory := ClassHistory([], [])

  /** The history of a class, or the empty one when it was never seen. */
  function Lookup(m: Histories, cls: string): ClassHistory
  {
    if cls in m then m[cls] else Empty
  }

  /** The last `WindowSize` elements of `s` (all of `s` when it is shorter). */
  function Recent<T>(s: seq<T>): (r: seq<T>)
    ensures |r| == if |s| <= WindowSize then |s| else WindowSize
  {
    if |s| <= WindowSize then s else s[|s| - WindowSize..]
  }

  /** Keeping the recent part and then appending is the same as appending and
      then keeping the recent part. */
  lemma RecentAppend<T>(s: seq<T>, x: T)
    ensures Recent(Recent(s) + [x]) == Recent(s + [x])
  {
    if |s| >= WindowSize {
      var u := Recent(s) + [x];
      var t := s + [x];
      assert |u| == WindowSize + 1;
      assert Recent(u) == u[1..];
      assert Recent(t) == t[|s| + 1 - WindowSize..];
      assert forall i :: 0 <= i < WindowSize ==> u[1..][i] == t[|s| + 1 - WindowSize..][i];
    }
  }

  /** `push` the new sighting, then `shift` the oldest one if the window
      grew past `WindowSize`. */
  function Slide(h: ClassHistory, confidence: int, bbox: Box): (h': ClassHistory)
    requires WellFormed(h)
    ensures WellFormed(h')
    ensures h'.confidences == Recent(h.confidences + [confidence])
    ensures h'.bboxes == Recent(h.bboxes + [bbox])
  {
    var cs := h.confidences + [confidence];
    var bs := h.bboxes + [bbox];
    if |cs| > WindowSize then ClassHistory(cs[1..], bs[1..]) else ClassHistory(cs, bs)
  }

  /** `k` copies of `x`. */
  function Copies<T>(x: T, k: nat): (r: seq<T>)
    ensures |r| == k
    ensures forall i :: 0 <= i < k ==> r[i] == x
  {
    seq(k, _ => x)
  }

  lemma CopiesSnoc<T>(x: T, k: nat)
    ensures Copies(x, k) + [x] == Copies(x, k + 1)
  {
  }

  /** Sliding a repeated sighting into a window of its own copies adds one
      copy, up to `WindowSize`. */
  lemma SlideCopies(c: int, b: Box, k: nat)
    requires k <= WindowSize
    ensures var n := if k < WindowSize then k + 1 else WindowSize;
      Slide(ClassHistory(Copies(c, k), Copies(b, k)), c, b) == ClassHistory(Copies(c, n), Copies(b, n))
  {
  }

  /** A sighting always ends up as the newest entry, and the window grows by one
      until it holds `WindowSize` entries. */
  lemma SlideFifo(h: ClassHistory, confidence: int, bbox: Box)
    requires WellFormed(h)
    ensures var h' := Slide(h, confidence, bbox);
      && |h'.confidences| == (if |h.confidences| < WindowSize then |h.confidences| + 1 else WindowSize)
      && h'.confidences[|h'.confidences| - 1] == confidence
      && h'.bboxes[|h'.bboxes| - 1] == bbox
      && (|h.confidences| < WindowSize ==> h'.confidences[..|h.confidences|] == h.confidences)
      && (|h.confidences| == WindowSize ==> h'.confidences[..WindowSize - 1] == h.confidences[1..])
      && (|h.bboxes| < WindowSize ==> h'.bboxes[..|h.bboxes|] == h.bboxes)
      && (|h.bboxes| == WindowSize ==> h'.bboxes[..WindowSize - 1] == h.bboxes[1..])
  {
  }
}
