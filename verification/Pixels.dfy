/** What the overlap ratio measures: on boxes with integer corners, its terms count pixels. */
module Pixels {
  import opened Nms

  datatype PixelBox = PixelBox(x1: int, y1: int, x2: int, y2: int)
  {
    predicate Ordered() { x1 <= x2 && y1 <= y2 }

    function Corners(): Box { Box(x1 as real, y1 as real, x2 as real, y2 as real) }

    /** The pixels from one corner to the other, both included. */
    ghost function Pixels(): set<(int, int)> {
      set x: int, y: int | x1 <= x <= x2 && y1 <= y <= y2 :: (x, y)
    }
  }

  ghost function Column(x: int, y1: int, y2: int): set<(int, int)> {
    PixelBox(x, y1, x, y2).Pixels()
  }

  lemma {:induction false} ColumnSize(x: int, y1: int, y2: int)
    requires y1 <= y2 + 1
    ensures |Column(x, y1, y2)| == y2 - y1 + 1
    decreases y2 + 1 - y1
  {
    if y1 > y2 {
      assert Column(x, y1, y2) == {};
    } else {
      ColumnSize(x, y1, y2 - 1);
      assert Column(x, y1, y2) == Column(x, y1, y2 - 1) + {(x, y2)};
    }
  }

  lemma {:induction false} PixelCount(b: PixelBox)
    requires b.x1 <= b.x2 + 1 && b.y1 <= b.y2 + 1
    ensures |b.Pixels()| == (b.x2 - b.x1 + 1) * (b.y2 - b.y1 + 1)
    decreases b.x2 + 1 - b.x1
  {
    if b.x1 > b.x2 {
      assert b.Pixels() == {};
    } else {
      var rest := b.(x2 := b.x2 - 1);
      PixelCount(rest);
      ColumnSize(b.x2, b.y1, b.y2);
      assert b.Pixels() == rest.Pixels() + Column(b.x2, b.y1, b.y2);
      assert rest.Pixels() * Column(b.x2, b.y1, b.y2) == {};
      OneMoreColumn(b.x2 - b.x1, b.y2 - b.y1 + 1);
    }
  }

  lemma OneMoreColumn(columns: int, height: int)
    ensures (columns + 1) * height == columns * height + height
  {
  }

  /** The common pixels of two boxes form a box; it is empty if its corners are out of order. */
  function Meet(a: PixelBox, b: PixelBox): PixelBox {
    PixelBox(if a.x1 >= b.x1 then a.x1 else b.x1, if a.y1 >= b.y1 then a.y1 else b.y1,
             if a.x2 <= b.x2 then a.x2 else b.x2, if a.y2 <= b.y2 then a.y2 else b.y2)
  }

  lemma CommonPixels(a: PixelBox, b: PixelBox)
    ensures a.Pixels() * b.Pixels() == Meet(a, b).Pixels()
  {
  }

  function Extent(from: int, to: int): nat { if from <= to then to - from + 1 else 0 }

  lemma MeetCount(m: PixelBox)
    ensures |m.Pixels()| == Extent(m.x1, m.x2) * Extent(m.y1, m.y2)
  {
    if m.Ordered() {
      PixelCount(m);
    } else {
      assert m.Pixels() == {};
      assert Extent(m.x1, m.x2) == 0 || Extent(m.y1, m.y2) == 0;
    }
  }

  lemma CommonIsExtent(a1: int, a2: int, b1: int, b2: int)
    ensures
      var from, to := if a1 >= b1 then a1 else b1, if a2 <= b2 then a2 else b2;
      Common(a1 as real, a2 as real, b1 as real, b2 as real) == Extent(from, to) as real
  {
  }

  lemma RealProduct(m: int, n: int)
    ensures (m as real) * (n as real) == (m * n) as real
  {
  }

  lemma AreaCounts(a: PixelBox)
    requires a.Ordered()
    ensures Area(a.Corners()) == |a.Pixels()| as real
  {
    PixelCount(a);
    RealProduct(a.x2 - a.x1 + 1, a.y2 - a.y1 + 1);
  }

  lemma IntersectionIs(a: Box, b: Box, w: real, h: real)
    requires Common(a.x1, a.x2, b.x1, b.x2) == w && Common(a.y1, a.y2, b.y1, b.y2) == h
    ensures Intersection(a, b) == w * h
  {
  }

  lemma IntersectionCounts(a: PixelBox, b: PixelBox)
    ensures Intersection(a.Corners(), b.Corners()) == |a.Pixels() * b.Pixels()| as real
  {
    hide Common, Extent, Intersection;
    var m := Meet(a, b);
    var w, h := Extent(m.x1, m.x2), Extent(m.y1, m.y2);
    CommonIsExtent(a.x1, a.x2, b.x1, b.x2);
    CommonIsExtent(a.y1, a.y2, b.y1, b.y2);
    IntersectionIs(a.Corners(), b.Corners(), w as real, h as real);
    RealProduct(w, h);
    CommonPixels(a, b);
    MeetCount(m);
  }

  /**
   * The ratio is the number of common pixels over the number of pixels in either box, and a box is spared exactly
   * if that is at most the threshold.
   */
  lemma RatioCountsPixels(a: PixelBox, b: PixelBox, threshold: real)
    requires a.Ordered() && b.Ordered()
    ensures Area(a.Corners()) == |a.Pixels()| as real
    ensures Intersection(a.Corners(), b.Corners()) == |a.Pixels() * b.Pixels()| as real
    ensures Union(a.Corners(), b.Corners()) == |a.Pixels() + b.Pixels()| as real
    ensures |a.Pixels() + b.Pixels()| > 0
    ensures Within(a.Corners(), b.Corners(), threshold)
      <==> |a.Pixels() * b.Pixels()| as real / |a.Pixels() + b.Pixels()| as real <= threshold
  {
    AreaCounts(a);
    AreaCounts(b);
    IntersectionCounts(a, b);
    assert |a.Pixels() + b.Pixels()| == |a.Pixels()| + |b.Pixels()| - |a.Pixels() * b.Pixels()|;
    assert (a.x1, a.y1) in a.Pixels() + b.Pixels();
    hide Area, Intersection;
  }

  /** Between pixels, lengths and clipped overlaps grow with the distance of the corners. */
  lemma LengthsAreDistances(from: real, to: real, d: real)
    ensures Length(from, to + d) == Length(from, to) + d && Length(from - d, to) == Length(from, to) + d
    ensures Length(from + d, to + d) == Length(from, to)
  {
  }
}
