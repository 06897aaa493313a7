/**
 Bounding boxes `[x, y, width, height]` in pixels, the jitter check over a
 window of boxes, and the element-wise average box.
 */
module Boxes {
  import opened Numeric

  datatype Box = Box(x: real, y: real, w: real, h: real)

  /** The four positions of a bbox array: `bbox[0]` .. `bbox[3]`. */
  datatype Axis = X | Y | W | H

  /** Largest tolerated movement of the top-left corner between two boxes. */
  const MaxJitter: real := 50.0

  function Coord(b: Box, a: Axis): real
  {
    match a
    case X => b.x
    case Y => b.y
    case W => b.w
    case H => b.h
  }

  /** One coordinate of every box in a window, in window order. */
  function Column(bs: seq<Box>, a: Axis): (c: seq<real>)
    ensures |c| == |bs|
    ensures forall i :: 0 <= i < |bs| ==> c[i] == Coord(bs[i], a)
  {
    seq(|bs|, i requires 0 <= i < |bs| => Coord(bs[i], a))
  }

  /** Two boxes are close when both top-left coordinates differ by less than
      the jitter bound; width and height play no part. */
  predicate Close(earlier: Box, later: Box)
  {
    Abs(earlier.x - later.x) < MaxJitter && Abs(earlier.y - later.y) < MaxJitter
  }

  /** `prev.every(prevBox => close(prevBox, b))`, scanning front to back. */
  predicate CloseToAll(prev: seq<Box>, b: Box)
  {
    prev == [] || (Close(prev[0], b) && CloseToAll(prev[1..], b))
  }

  /** The outer `every` over the window from index `i` on: each box is close to
      every box before it; index 0 passes trivially. */
  predicate ConsistentFrom(bs: seq<Box>, i: nat)
    decreases |bs| - i
  {
    i >= |bs| || ((i == 0 || CloseToAll(bs[..i], bs[i])) && ConsistentFrom(bs, i + 1))
  }

  /** The jitter check of a whole window. */
  predicate Consistent(bs: seq<Box>)
  {
    ConsistentFrom(bs, 0)
  }

  /** Reference definition: every pair of boxes in the window is close. */
  ghost predicate AllPairsClose(bs: seq<Box>)
  {
    forall j, i :: 0 <= j < i < |bs| ==> Close(bs[j], bs[i])
  }

  lemma {:induction false} CloseToAllIff(prev: seq<Box>, b: Box)
    ensures CloseToAll(prev, b) <==> forall j :: 0 <= j < |prev| ==> Close(prev[j], b)
  {
    if prev != [] {
      CloseToAllIff(prev[1..], b);
      assert forall j :: 1 <= j < |prev| ==> prev[j] == prev[1..][j - 1];
    }
  }

  lemma {:induction false} ConsistentFromIff(bs: seq<Box>, i: nat)
    ensures ConsistentFrom(bs, i) <==>
      forall k, j :: i <= k < |bs| && 0 <= j < k ==> Close(bs[j], bs[k])
    decreases |bs| - i
  {
    if i < |bs| {
      ConsistentFromIff(bs, i + 1);
      CloseToAllIff(bs[..i], bs[i]);
    }
  }

  /** The nested `every` of the source is exactly the all-pairs check, not a
      check of consecutive boxes only. */
  lemma ConsistentIff(bs: seq<Box>)
    ensures Consistent(bs) <==> AllPairsClose(bs)
  {
    ConsistentFromIff(bs, 0);
  }

  /** Closeness does not depend on which box came first. */
  lemma CloseSymmetric(a: Box, b: Box)
    ensures Close(a, b) <==> Close(b, a)
  {
    assert a.x - b.x == -(b.x - a.x);
    assert a.y - b.y == -(b.y - a.y);
  }

  /** The element-wise mean of a non-empty window of boxes. */
  function AvgBox(bs: seq<Box>): Box
    requires |bs| > 0
  {
    Box(Mean(Column(bs, X)), Mean(Column(bs, Y)), Mean(Column(bs, W)), Mean(Column(bs, H)))
  }

  /** Each coordinate of the average lies between the smallest and the largest
      value of that coordinate in the window. */
  lemma AvgBoxWithin(bs: seq<Box>, a: Axis, lo: real, hi: real)
    requires |bs| > 0
    requires forall i :: 0 <= i < |bs| ==> lo <= Coord(bs[i], a) <= hi
    ensures lo <= Coord(AvgBox(bs), a) <= hi
  {
    MeanBounds(Column(bs, a), lo, hi);
  }

  /** A window of identical boxes averages to that box. */
  lemma AvgBoxConstant(bs: seq<Box>, b: Box)
    requires |bs| > 0
    requires forall i :: 0 <= i < |bs| ==> bs[i] == b
    ensures AvgBox(bs) == b
  {
    AvgBoxWithin(bs, X, b.x, b.x);
    AvgBoxWithin(bs, Y, b.y, b.y);
    AvgBoxWithin(bs, W, b.w, b.w);
    AvgBoxWithin(bs, H, b.h, b.h);
  }

  /** In a window that passes the jitter check, the averaged box is itself
      within the jitter bound of every box of the window. */
  lemma AvgBoxNearEveryBox(bs: seq<Box>, k: nat)
    requires k < |bs|
    requires Consistent(bs)
    ensures Close(AvgBox(bs), bs[k])
  {
    ConsistentIff(bs);
    var b := bs[k];
    forall i | 0 <= i < |bs|
      ensures b.x - MaxJitter < bs[i].x < b.x + MaxJitter
      ensures b.y - MaxJitter < bs[i].y < b.y + MaxJitter
    {
      if i < k {
        assert Close(bs[i], b);
        CloseSymmetric(bs[i], b);
      } else if i > k {
        assert Close(b, bs[i]);
      }
    }
    MeanStrictBounds(Column(bs, X), b.x - MaxJitter, b.x + MaxJitter);
    MeanStrictBounds(Column(bs, Y), b.y - MaxJitter, b.y + MaxJitter);
  }

  /** The worked example: `[[0,0,10,10],[10,10,10,10]]` averages to `[5,5,10,10]`. */
  lemma AvgBoxExample()
    ensures AvgBox([Box(0.0, 0.0, 10.0, 10.0), Box(10.0, 10.0, 10.0, 10.0)]) == Box(5.0, 5.0, 10.0, 10.0)
  {
    var bs := [Box(0.0, 0.0, 10.0, 10.0), Box(10.0, 10.0, 10.0, 10.0)];
    assert Column(bs, X) == [0.0, 10.0];
    assert Column(bs, Y) == [0.0, 10.0];
    assert Column(bs, W) == [10.0, 10.0];
    assert Column(bs, H) == [10.0, 10.0];
    assert [0.0, 10.0][..1] == [0.0] && [0.0][..0] == [];
    assert [10.0, 10.0][..1] == [10.0] && [10.0][..0] == [];
    assert Sum([0.0, 10.0]) == 10.0;
    assert Sum([10.0, 10.0]) == 20.0;
  }
}
