/** Multi-level detector outputs: from feature maps to one list of predictions. */
module Levels {
  /** A map over a grid of cells, by row and column; its cells may be vectors of channels. */
  type Grid<T> = seq<seq<T>>

  ghost predicate Shaped<T>(g: Grid<T>, h: nat, w: nat) {
    |g| == h && forall y :: 0 <= y < h ==> |g[y]| == w
  }

  /** Row-major reshape of a grid to a list of cells. */
  function Flatten<T>(g: Grid<T>): seq<T> {
    if g == [] then [] else Flatten(g[..|g| - 1]) + g[|g| - 1]
  }

  function Position(w: nat, y: nat, x: nat): nat { y * w + x }

  lemma {:induction false} FlattenAt<T>(g: Grid<T>, h: nat, w: nat, y: nat, x: nat)
    requires Shaped(g, h, w) && y < h && x < w
    ensures |Flatten(g)| == h * w && Position(w, y, x) == y * w + x < h * w
    ensures Flatten(g)[y * w + x] == g[y][x]
  {
    FlattenLength(g[..h - 1], h - 1, w);
    RowBound(h, w, y, x);
    if y < h - 1 {
      FlattenAt(g[..h - 1], h - 1, w, y, x);
    }
  }

  lemma RowBound(h: nat, w: nat, y: nat, x: nat)
    requires y < h && x < w
    ensures (h - 1) * w + w == h * w
    ensures y < h - 1 ==> Position(w, y, x) < (h - 1) * w
    ensures y == h - 1 ==> Position(w, y, x) == (h - 1) * w + x
  {
    if y < h - 1 {
      assert (y + 1) * w <= (h - 1) * w;
    }
  }

  lemma {:induction false} FlattenLength<T>(g: Grid<T>, h: nat, w: nat)
    requires Shaped(g, h, w)
    ensures |Flatten(g)| == h * w
  {
    if h > 0 {
      FlattenLength(g[..h - 1], h - 1, w);
      assert (h - 1) * w + w == h * w;
    }
  }

  /** The levels one after another: the flattened, concatenated prediction list. */
  function Concatenated<T>(levels: seq<Grid<T>>): seq<T> {
    if levels == [] then [] else Concatenated(levels[..|levels| - 1]) + Flatten(levels[|levels| - 1])
  }

  /** Extents of a level. */
  datatype Extent = Extent(h: nat, w: nat)
  {
    function Size(): nat { h * w }
  }

  ghost predicate AllShaped<T>(levels: seq<Grid<T>>, extents: seq<Extent>) {
    |levels| == |extents| && forall l :: 0 <= l < |levels| ==> Shaped(levels[l], extents[l].h, extents[l].w)
  }

  function Offset(extents: seq<Extent>): nat {
    if extents == [] then 0 else Offset(extents[..|extents| - 1]) + extents[|extents| - 1].Size()
  }

  /** A cell of some level. */
  datatype Cell = Cell(level: nat, y: nat, x: nat)

  predicate InGrid(c: Cell, extents: seq<Extent>) {
    c.level < |extents| && c.y < extents[c.level].h && c.x < extents[c.level].w
  }

  function AnchorOf(c: Cell, extents: seq<Extent>): nat
    requires InGrid(c, extents)
  {
    Offset(extents[..c.level]) + Position(extents[c.level].w, c.y, c.x)
  }

  lemma {:induction false} ConcatenatedLength<T>(levels: seq<Grid<T>>, extents: seq<Extent>)
    requires AllShaped(levels, extents)
    ensures |Concatenated(levels)| == Offset(extents)
  {
    if levels != [] {
      var last := |levels| - 1;
      ConcatenatedLength(levels[..last], extents[..last]);
      FlattenLength(levels[last], extents[last].h, extents[last].w);
    }
  }

  /** Every level's cell is found at its anchor, whatever the cells hold. */
  lemma {:induction false} CellAtAnchor<T>(levels: seq<Grid<T>>, extents: seq<Extent>, c: Cell)
    requires AllShaped(levels, extents) && InGrid(c, extents)
    ensures AnchorOf(c, extents) < |Concatenated(levels)|
    ensures Concatenated(levels)[AnchorOf(c, extents)] == levels[c.level][c.y][c.x]
  {
    var last := |levels| - 1;
    ConcatenatedLength(levels[..last], extents[..last]);
    if c.level < last {
      assert extents[..last][..c.level] == extents[..c.level];
      CellAtAnchor(levels[..last], extents[..last], c);
    } else {
      FlattenAt(levels[last], extents[last].h, extents[last].w, c.y, c.x);
    }
  }

  /** The grid of cell coordinates that the decoder builds for each level. */
  function CellGrid(level: nat, e: Extent): Grid<Cell> {
    seq(e.h, y requires 0 <= y < e.h => seq(e.w, x requires 0 <= x < e.w => Cell(level, y, x)))
  }

  function CellGrids(extents: seq<Extent>): seq<Grid<Cell>> {
    seq(|extents|, l requires 0 <= l < |extents| => CellGrid(l, extents[l]))
  }

  /** The coordinates paired with each anchor. */
  function Cells(extents: seq<Extent>): seq<Cell> { Concatenated(CellGrids(extents)) }

  lemma CellsAt(extents: seq<Extent>, c: Cell)
    requires InGrid(c, extents)
    ensures |Cells(extents)| == Offset(extents) && AnchorOf(c, extents) < Offset(extents)
    ensures Cells(extents)[AnchorOf(c, extents)] == c
  {
    assert AllShaped(CellGrids(extents), extents);
    ConcatenatedLength(CellGrids(extents), extents);
    CellAtAnchor(CellGrids(extents), extents, c);
  }

  lemma {:induction false} ConcatenatedExactElements(extents: seq<Extent>, a: nat)
    requires a < |Cells(extents)|
    ensures InGrid(Cells(extents)[a], extents) && AnchorOf(Cells(extents)[a], extents) == a
  {
    AnchorOfCellAt(CellGrids(extents), extents, a);
  }

  /** Counting anchors through the levels and rows comes back to the anchor one started from. */
  lemma {:induction false} AnchorOfCellAt(grids: seq<Grid<Cell>>, extents: seq<Extent>, a: nat)
    requires AllShaped(grids, extents) && a < |Concatenated(grids)|
    requires forall l, y, x :: 0 <= l < |grids| && 0 <= y < |grids[l]| && 0 <= x < |grids[l][y]| ==>
      grids[l][y][x] == Cell(l, y, x)
    ensures InGrid(Concatenated(grids)[a], extents) && AnchorOf(Concatenated(grids)[a], extents) == a
  {
    var last := |grids| - 1;
    var before := Concatenated(grids[..last]);
    ConcatenatedLength(grids[..last], extents[..last]);
    if a < |before| {
      AnchorOfCellAt(grids[..last], extents[..last], a);
      var c := before[a];
      assert extents[..last][..c.level] == extents[..c.level];
    } else {
      PositionOfCellAt(grids[last], last, extents[last].h, extents[last].w, a - |before|);
      assert extents[..last] == extents[..Concatenated(grids)[a].level];
    }
  }

  lemma {:induction false} PositionOfCellAt(g: Grid<Cell>, level: nat, h: nat, w: nat, a: nat)
    requires Shaped(g, h, w) && a < |Flatten(g)|
    requires forall y, x :: 0 <= y < h && 0 <= x < w ==> g[y][x] == Cell(level, y, x)
    ensures
      var c := Flatten(g)[a];
      c.level == level && c.y < h && c.x < w && Position(w, c.y, c.x) == a
  {
    FlattenLength(g[..h - 1], h - 1, w);
    if a < (h - 1) * w {
      PositionOfCellAt(g[..h - 1], level, h - 1, w, a);
    }
  }

  /** Anchors and cells are in one-to-one correspondence. */
  lemma AnchorsAreCells(extents: seq<Extent>, a: nat, c: Cell)
    requires InGrid(c, extents) && a < Offset(extents)
    ensures |Cells(extents)| == Offset(extents) && AnchorOf(c, extents) < Offset(extents)
    ensures InGrid(Cells(extents)[a], extents)
    ensures Cells(extents)[a] == c <==> a == AnchorOf(c, extents)
  {
    CellsAt(extents, c);
    ConcatenatedExactElements(extents, a);
  }
}
