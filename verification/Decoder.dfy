/** Assembling the network's outputs on the host and decoding them to boxes. */
module Decoder {
  import opened Wrappers
  import opened Levels
  import opened Modular

  type Row = seq<real>

  /** An array as the runtime hands it over: (H, W, C), (N, H, W, C), or of another rank. `c` is its last extent. */
  datatype Array = NoBatch(hwc: Grid<Row>, c: nat) | Batch(images: seq<Grid<Row>>, c: nat) | OtherRank

  /** One array without its batch dimension; without channels it cannot be reshaped. */
  function Level(a: Array): Option<Grid<Row>> {
    match a
    case NoBatch(hwc, c) => if c > 0 then Some(hwc) else None
    case Batch(images, c) => if |images| == 1 && c > 0 then Some(images[0]) else None
    case OtherRank => None
  }

  function LevelsOf(arrays: seq<Array>): Option<seq<Grid<Row>>> {
    if arrays == [] then Some([]) else
    var before, last := LevelsOf(arrays[..|arrays| - 1]), Level(arrays[|arrays| - 1]);
    if before.None? || last.None? then None else Some(before.value + [last.value])
  }

  predicate SameChannels(arrays: seq<Array>) {
    forall i :: 0 <= i < |arrays| ==> !arrays[i].OtherRank? && !arrays[0].OtherRank? && arrays[i].c == arrays[0].c
  }

  /** The joined prediction list; None stands for an error raised, as for an empty list or unequal channel counts. */
  function Prediction(arrays: seq<Array>): Option<seq<Row>> {
    if arrays == [] || LevelsOf(arrays).None? || !SameChannels(arrays) then None
    else Some(Concatenated(LevelsOf(arrays).value))
  }

  lemma {:induction false} LevelsOfPrefix(arrays: seq<Array>, n: nat)
    requires n <= |arrays| && LevelsOf(arrays[..n]).None?
    ensures LevelsOf(arrays).None?
  {
    if n == |arrays| {
      assert arrays[..n] == arrays;
    } else {
      assert arrays[..|arrays| - 1][..n] == arrays[..n];
      LevelsOfPrefix(arrays[..|arrays| - 1], n);
    }
  }

  /** The images of the arrays, which have a batch of one or no batch dimension. */
  function WithoutBatch(arrays: seq<Array>): (levels: seq<Grid<Row>>)
    ensures |levels| == |arrays|
  {
    seq(|arrays|, i requires 0 <= i < |arrays| =>
      if arrays[i].NoBatch? then arrays[i].hwc
      else if arrays[i].Batch? && |arrays[i].images| == 1 then arrays[i].images[0]
      else [])
  }

  lemma {:induction false} LevelsAre(arrays: seq<Array>)
    ensures LevelsOf(arrays).Some? <==> forall i :: 0 <= i < |arrays| ==>
      (arrays[i].NoBatch? || (arrays[i].Batch? && |arrays[i].images| == 1)) && arrays[i].c > 0
    ensures LevelsOf(arrays).Some? ==> LevelsOf(arrays).value == WithoutBatch(arrays)
  {
    if arrays != [] {
      var last := |arrays| - 1;
      LevelsAre(arrays[..last]);
      assert forall i :: 0 <= i < last ==> arrays[..last][i] == arrays[i];
      assert WithoutBatch(arrays) == WithoutBatch(arrays[..last]) + [WithoutBatch(arrays)[last]];
    }
  }

  function FlatLevels(levels: seq<Grid<Row>>): (outs: seq<seq<Row>>)
    ensures |outs| == |levels|
  {
    seq(|levels|, l requires 0 <= l < |levels| => Flatten(levels[l]))
  }

  /** Joins flattened levels, which must have equally many channels. */
  method Concatenate(outs: seq<seq<Row>>, channels: seq<nat>, ghost levels: seq<Grid<Row>>)
    returns (joined: Option<seq<Row>>)
    requires |outs| == |channels| && outs == FlatLevels(levels)
    ensures joined.Some? <==> channels != [] && forall i :: 0 <= i < |channels| ==> channels[i] == channels[0]
    ensures joined.Some? ==> joined.value == Concatenated(levels)
  {
    if |outs| == 0 {
      return None;
    }
    var rows: seq<Row> := [];
    for n := 0 to |outs|
      invariant rows == Concatenated(levels[..n])
      invariant forall i :: 0 <= i < n ==> channels[i] == channels[0]
    {
      if channels[n] != channels[0] {
        return None;
      }
      assert levels[..n + 1][..n] == levels[..n];
      rows := rows + outs[n];
    }
    assert levels[..|levels|] == levels;
    joined := Some(rows);
  }

  /** The list version: drop the batch dimension of each array, flatten its cells, join the levels. */
  method GetModelOutputs(arrays: seq<Array>) returns (prediction: Option<seq<Row>>)
    ensures prediction == Prediction(arrays)
    ensures prediction.Some? <==>
      && arrays != []
      && forall i :: 0 <= i < |arrays| ==>
           && (arrays[i].NoBatch? || (arrays[i].Batch? && |arrays[i].images| == 1))
           && arrays[i].c > 0 && !arrays[0].OtherRank? && arrays[i].c == arrays[0].c
    ensures prediction.Some? ==> prediction.value == Concatenated(WithoutBatch(arrays))
  {
    var outs: seq<seq<Row>>, channels: seq<nat> := [], [];
    ghost var levels: seq<Grid<Row>> := [];
    for n := 0 to |arrays|
      invariant LevelsOf(arrays[..n]) == Some(levels)
      invariant outs == FlatLevels(levels) && |channels| == n == |levels|
      invariant forall i :: 0 <= i < n ==> !arrays[i].OtherRank? && channels[i] == arrays[i].c
    {
      assert arrays[..n + 1][..n] == arrays[..n];
      var x := Level(arrays[n]);
      if x.None? {
        LevelsOfPrefix(arrays, n + 1);
        return None;
      }
      levels := levels + [x.value];
      outs := outs + [Flatten(x.value)];
      channels := channels + [arrays[n].c];
    }
    assert arrays[..|arrays|] == arrays;
    prediction := Concatenate(outs, channels, levels);
    LevelsAre(arrays);
  }

  // The plugin's version, on one flat buffer

  /** Rows of `c` numbers, cut from a buffer: a row-major reshape to (-1, c). */
  function Rows(buffer: seq<real>, c: nat, n: nat): (rows: seq<Row>)
    requires |buffer| == n * c
    ensures |rows| == n
  {
    if n == 0 then [] else
    assert (n - 1) * c <= n * c;
    Rows(buffer[..(n - 1) * c], c, n - 1) + [buffer[(n - 1) * c..]]
  }

  /** The rows of the first `l` levels were cut from the first `start` numbers. */
  ghost predicate CutSoFar(buffer: seq<real>, extents: seq<Extent>, c: nat, l: nat, start: nat, joined: seq<Row>)
    requires l <= |extents|
  {
    start == Offset(extents[..l]) * c <= |buffer| && joined == Rows(buffer[..start], c, Offset(extents[..l]))
  }

  method GetModelOutputsFlat(buffer: seq<real>, extents: seq<Extent>, c: nat) returns (prediction: Option<seq<Row>>)
    ensures prediction.Some? <==> |buffer| >= Offset(extents) * c
    ensures prediction.Some? ==> prediction.value == Rows(buffer[..Offset(extents) * c], c, Offset(extents))
  {
    var start: nat := 0;
    var joined: seq<Row> := [];
    assert CutSoFar(buffer, extents, c, 0, 0, []);
    for l := 0 to |extents|
      invariant start <= |buffer| && CutSoFar(buffer, extents, c, l, start, joined)
    {
      hide CutSoFar, Offset, Rows, Extent.Size;
      var segSize := SegmentSize(extents[l], c);
      CutOneMore(buffer, extents, c, l, start, joined);
      if start + segSize > |buffer| {
        return None;
      }
      joined := joined + Rows(buffer[start..start + segSize], c, extents[l].Size());
      start := start + segSize;
    }
    assert extents[..|extents|] == extents;
    prediction := Some(joined);
  }

  function SegmentSize(e: Extent, c: nat): (size: nat)
    ensures size == e.Size() * c
  {
    e.h * e.w * c
  }

  lemma CutOneMore(buffer: seq<real>, extents: seq<Extent>, c: nat, l: nat, start: nat, joined: seq<Row>)
    requires l < |extents| && start <= |buffer| && CutSoFar(buffer, extents, c, l, start, joined)
    ensures
      var next, cells := start + SegmentSize(extents[l], c), extents[l].Size();
      if next > |buffer| then |buffer| < Offset(extents) * c
      else CutSoFar(buffer, extents, c, l + 1, next, joined + Rows(buffer[start..next], c, cells))
  {
    hide Offset, Rows, Extent.Size;
    var cells := extents[l].Size();
    NextOffset(extents, l, cells, c);
    if start + cells * c <= |buffer| {
      NextRows(buffer, c, start, Offset(extents[..l]), cells);
    }
  }

  /** Where the next level's segment ends. */
  lemma NextOffset(extents: seq<Extent>, l: nat, cells: nat, c: nat)
    requires l < |extents| && cells == extents[l].Size()
    ensures Offset(extents[..l + 1]) == Offset(extents[..l]) + cells
    ensures Offset(extents[..l + 1]) * c == Offset(extents[..l]) * c + cells * c <= Offset(extents) * c
  {
    assert extents[..l + 1][..l] == extents[..l];
    OffsetGrows(extents, l + 1);
    SegmentEnd(Offset(extents[..l]), cells, Offset(extents[..l + 1]), Offset(extents), c);
  }

  lemma SegmentEnd(start: nat, cells: nat, end: nat, total: nat, c: nat)
    requires end == start + cells <= total
    ensures end * c == start * c + cells * c <= total * c
  {
    Distributes(start, cells, c);
    TimesMonotone(end, total, c);
  }

  /** The next level's rows follow those cut so far. */
  lemma NextRows(buffer: seq<real>, c: nat, start: nat, rows: nat, cells: nat)
    requires start == rows * c && start + cells * c <= |buffer|
    ensures start + cells * c == (rows + cells) * c
    ensures Rows(buffer[..start + cells * c], c, rows + cells)
         == Rows(buffer[..start], c, rows) + Rows(buffer[start..start + cells * c], c, cells)
  {
    hide Rows;
    Distributes(rows, cells, c);
    RowsAppend(buffer[..start], buffer[start..start + cells * c], c, rows, cells);
    assert buffer[..start] + buffer[start..start + cells * c] == buffer[..start + cells * c];
  }

  lemma {:induction false} OffsetGrows(extents: seq<Extent>, n: nat)
    requires n <= |extents|
    ensures Offset(extents[..n]) <= Offset(extents)
  {
    if n < |extents| {
      assert extents[..|extents| - 1][..n] == extents[..n];
      OffsetGrows(extents[..|extents| - 1], n);
    } else {
      assert extents[..n] == extents;
    }
  }

  lemma {:induction false} RowsAppend(a: seq<real>, b: seq<real>, c: nat, m: nat, n: nat)
    requires |a| == m * c && |b| == n * c
    ensures |a + b| == (m + n) * c && Rows(a + b, c, m + n) == Rows(a, c, m) + Rows(b, c, n)
  {
    Distributes(m, n, c);
    if n == 0 {
      assert a + b == a;
    } else {
      var k := (n - 1) * c;
      Distributes(n - 1, 1, c);
      Distributes(m, n - 1, c);
      RowsAppend(a, b[..k], c, m, n - 1);
      assert (a + b)[..(m + n - 1) * c] == a + b[..k];
      assert (a + b)[(m + n - 1) * c..] == b[k..];
    }
  }

  /** The cells of the levels written out row-major, as the accelerator leaves them in its buffer. */
  function Serialized(rows: seq<Row>): seq<real> { Flatten(rows) }

  lemma {:induction false} RowsOfSerialized(rows: seq<Row>, c: nat)
    requires forall i :: 0 <= i < |rows| ==> |rows[i]| == c
    ensures |Serialized(rows)| == |rows| * c && Rows(Serialized(rows), c, |rows|) == rows
  {
    if rows != [] {
      var last := |rows| - 1;
      RowsOfSerialized(rows[..last], c);
      Distributes(last, 1, c);
      assert Serialized(rows)[..last * c] == Serialized(rows[..last]);
      assert Serialized(rows)[last * c..] == rows[last];
    }
  }

  ghost predicate Channels(levels: seq<Grid<Row>>, c: nat) {
    forall l, y, x :: 0 <= l < |levels| && 0 <= y < |levels[l]| && 0 <= x < |levels[l][y]| ==> |levels[l][y][x]| == c
  }

  /** Levels as arrays without a batch dimension. */
  function Unbatched(levels: seq<Grid<Row>>, c: nat): seq<Array> {
    seq(|levels|, l requires 0 <= l < |levels| => NoBatch(levels[l], c))
  }

  lemma {:induction false} LevelsOfUnbatched(levels: seq<Grid<Row>>, c: nat)
    requires c > 0
    ensures LevelsOf(Unbatched(levels, c)) == Some(levels)
  {
    if levels != [] {
      var last := |levels| - 1;
      LevelsOfUnbatched(levels[..last], c);
      assert Unbatched(levels, c)[..last] == Unbatched(levels[..last], c);
      assert levels == levels[..last] + [levels[last]];
    }
  }

  lemma PredictionOfLevels(levels: seq<Grid<Row>>, c: nat)
    ensures levels != [] && c > 0 ==> Prediction(Unbatched(levels, c)) == Some(Concatenated(levels))
  {
    if c > 0 {
      LevelsOfUnbatched(levels, c);
    }
  }

  /** Both versions agree: the flat buffer of the levels decodes to what the list of levels does. */
  lemma FlatAndListAgree(levels: seq<Grid<Row>>, extents: seq<Extent>, c: nat, trailing: seq<real>)
    requires AllShaped(levels, extents) && Channels(levels, c)
    ensures
      var buffer := Serialized(Concatenated(levels)) + trailing;
      && |buffer| >= Offset(extents) * c
      && Rows(buffer[..Offset(extents) * c], c, Offset(extents)) == Concatenated(levels)
      && (levels != [] && c > 0 ==>
            Prediction(Unbatched(levels, c)) == Some(Rows(buffer[..Offset(extents) * c], c, Offset(extents))))
  {
    PredictionOfLevels(levels, c);
    var rows := Concatenated(levels);
    CellsCover(extents);
    forall a | 0 <= a < |rows|
      ensures |rows[a]| == c
    {
      ConcatenatedLength(levels, extents);
      ConcatenatedExactElements(extents, a);
      CellsAt(extents, Cells(extents)[a]);
      CellAtAnchor(levels, extents, Cells(extents)[a]);
    }
    ConcatenatedLength(levels, extents);
    RowsOfSerialized(rows, c);
    assert (Serialized(rows) + trailing)[..|Serialized(rows)|] == Serialized(rows);
  }

  // Decoding

  const STRIDES: seq<nat> := [8, 16, 32]
  const STRIDES_P6: seq<nat> := [8, 16, 32, 64]

  function StridesOf(p6: bool): (s: seq<nat>)
    ensures forall l :: 0 <= l < |s| ==> s[l] > 0
  {
    if p6 then STRIDES_P6 else STRIDES
  }

  /** The extents of the levels for an image of the given size. */
  function ExtentsOf(height: nat, width: nat, p6: bool): (e: seq<Extent>)
    ensures |e| == |StridesOf(p6)|
  {
    var s := StridesOf(p6);
    seq(|s|, l requires 0 <= l < |s| => Extent(height / s[l], width / s[l]))
  }

  function Scaled(value: real, stride: nat): real { value * stride as real }

  /** A matrix entry decoded for its cell: centre from the cell's coordinates, size from the exponential. */
  function Decoded(value: real, column: nat, cell: Cell, stride: nat, exp: real -> real): real {
    if column == 0 then Scaled(value + cell.x as real, stride)
    else if column == 1 then Scaled(value + cell.y as real, stride)
    else if column < 4 then Scaled(exp(value), stride)
    else value
  }

  /** Coordinates can be paired with rows one by one; a single cell is broadcast to all rows. */
  predicate Broadcasts(cells: seq<Cell>, rows: nat) {
    |cells| == rows || |cells| == 1
  }

  function CellOf(cells: seq<Cell>, row: nat): Cell
    requires |cells| == 1 || row < |cells|
  {
    if |cells| == 1 then cells[0] else cells[row]
  }

  ghost predicate CellsFit(cells: seq<Cell>, outputs: array2<real>, strides: seq<nat>) {
    Broadcasts(cells, outputs.Length0) && forall a :: 0 <= a < |cells| ==> cells[a].level < |strides|
  }

  method DecodeCentres(outputs: array2<real>, cells: seq<Cell>, strides: seq<nat>, ghost exp: real -> real)
    requires CellsFit(cells, outputs, strides) && outputs.Length1 >= 2
    modifies outputs
    ensures forall a, c: nat :: 0 <= a < outputs.Length0 && c < outputs.Length1 ==>
      var cell := CellOf(cells, a);
      outputs[a, c] == if c < 2 then Decoded(old(outputs[a, c]), c, cell, strides[cell.level], exp)
        else old(outputs[a, c])
  {
    forall a, c: nat | 0 <= a < outputs.Length0 && c < 2 {
      outputs[a, c] := Scaled(outputs[a, c] + if c == 0 then CellOf(cells, a).x as real else CellOf(cells, a).y as real,
                              strides[CellOf(cells, a).level]);
    }
  }

  method DecodeSizes(outputs: array2<real>, cells: seq<Cell>, strides: seq<nat>, exp: real -> real)
    requires CellsFit(cells, outputs, strides)
    modifies outputs
    ensures forall a, c: nat :: 0 <= a < outputs.Length0 && c < outputs.Length1 ==>
      var cell := CellOf(cells, a);
      outputs[a, c] == if 2 <= c < 4 then Decoded(old(outputs[a, c]), c, cell, strides[cell.level], exp)
        else old(outputs[a, c])
  {
    forall a, c: nat | 0 <= a < outputs.Length0 && 2 <= c < 4 && c < outputs.Length1 {
      outputs[a, c] := Scaled(exp(outputs[a, c]), strides[CellOf(cells, a).level]);
    }
  }

  // The levels of an image, without reference to the lists above

  /** 8 * 2^level */
  function StrideAt(level: nat): (s: nat)
    ensures s > 0
  {
    if level == 0 then 8 else 2 * StrideAt(level - 1)
  }

  function LevelCount(p6: bool): nat { if p6 then 4 else 3 }

  function CellsAcross(extent: nat, level: nat): nat { Quotient(extent, StrideAt(level)) }

  function Quotient(n: nat, d: nat): nat
    requires d > 0
  {
    n / d
  }

  /** How many cells the levels below have. */
  function LevelStart(height: nat, width: nat, level: nat): nat {
    if level == 0 then 0
    else LevelStart(height, width, level - 1) + CellsAcross(height, level - 1) * CellsAcross(width, level - 1)
  }

  /** The cell of a row: counted row by row, level by level; a single cell stands for all rows. */
  ghost predicate RowCell(height: nat, width: nat, p6: bool, row: nat, cell: Cell) {
    && cell.level < LevelCount(p6)
    && cell.y < CellsAcross(height, cell.level) && cell.x < CellsAcross(width, cell.level)
    && (LevelStart(height, width, LevelCount(p6)) == 1
        || row == LevelStart(height, width, cell.level) + cell.y * CellsAcross(width, cell.level) + cell.x)
  }

  lemma StridesAre(p6: bool)
    ensures |StridesOf(p6)| == LevelCount(p6)
    ensures forall l :: 0 <= l < LevelCount(p6) ==> StridesOf(p6)[l] == StrideAt(l)
  {
    assert StrideAt(1) == 16;
    assert StrideAt(2) == 32;
    assert StrideAt(3) == 64;
  }

  lemma {:induction false} LevelStartIs(height: nat, width: nat, p6: bool, level: nat)
    requires level <= LevelCount(p6)
    ensures |ExtentsOf(height, width, p6)| == LevelCount(p6)
    ensures Offset(ExtentsOf(height, width, p6)[..level]) == LevelStart(height, width, level)
  {
    StridesAre(p6);
    if level > 0 {
      LevelStartIs(height, width, p6, level - 1);
      var extents := ExtentsOf(height, width, p6);
      assert extents[..level][..level - 1] == extents[..level - 1];
    }
  }

  lemma CellsOfImage(height: nat, width: nat, p6: bool)
    ensures |Cells(ExtentsOf(height, width, p6))| == LevelStart(height, width, LevelCount(p6))
    ensures forall a :: 0 <= a < |Cells(ExtentsOf(height, width, p6))| ==>
      RowCell(height, width, p6, a, Cells(ExtentsOf(height, width, p6))[a])
  {
    var extents := ExtentsOf(height, width, p6);
    StridesAre(p6);
    CellsCover(extents);
    LevelStartIs(height, width, p6, LevelCount(p6));
    assert extents[..LevelCount(p6)] == extents;
    forall a | 0 <= a < |Cells(extents)|
      ensures RowCell(height, width, p6, a, Cells(extents)[a])
    {
      CellOfRow(height, width, p6, a);
    }
  }

  lemma CellOfRow(height: nat, width: nat, p6: bool, a: nat)
    requires a < |Cells(ExtentsOf(height, width, p6))|
    ensures RowCell(height, width, p6, a, Cells(ExtentsOf(height, width, p6))[a])
  {
    var extents := ExtentsOf(height, width, p6);
    StridesAre(p6);
    ConcatenatedExactElements(extents, a);
    var cell := Cells(extents)[a];
    LevelStartIs(height, width, p6, cell.level);
    hide Cells, StridesOf, LevelStart, Offset, StrideAt;
  }

  lemma RowsPaired(height: nat, width: nat, p6: bool, rows: nat)
    requires Broadcasts(Cells(ExtentsOf(height, width, p6)), rows)
    ensures
      var cells := Cells(ExtentsOf(height, width, p6));
      && (forall a :: 0 <= a < |cells| ==> cells[a].level < |StridesOf(p6)|)
      && (forall a: nat :: a < rows ==>
            && RowCell(height, width, p6, a, CellOf(cells, a))
            && CellOf(cells, a).level < |StridesOf(p6)|
            && StridesOf(p6)[CellOf(cells, a).level] == StrideAt(CellOf(cells, a).level))
  {
    CellsOfImage(height, width, p6);
    CellsCover(ExtentsOf(height, width, p6));
    StridesAre(p6);
    hide ExtentsOf, LevelStart, Cells, StrideAt, StridesOf, CellsAcross;
  }

  /**
   * In-place decoding: every row is decoded with the coordinates and the stride of its own cell. An error is raised,
   * and nothing changed, if the cells cannot be paired with the rows or there are no two columns for the centre.
   */
  method DemoPostprocess(outputs: array2<real>, height: nat, width: nat, p6: bool, exp: real -> real) returns (ok: bool)
    modifies outputs
    ensures ok <==>
      LevelStart(height, width, LevelCount(p6)) in [1, outputs.Length0] && outputs.Length1 >= 2
    ensures ok ==> CellsFit(Cells(ExtentsOf(height, width, p6)), outputs, StridesOf(p6))
    ensures forall a: nat :: a < outputs.Length0 && ok ==>
      RowCell(height, width, p6, a, CellOf(Cells(ExtentsOf(height, width, p6)), a))
    ensures forall a, c: nat :: 0 <= a < outputs.Length0 && c < outputs.Length1 ==>
      if !ok then outputs[a, c] == old(outputs[a, c]) else
      var cell := CellOf(Cells(ExtentsOf(height, width, p6)), a);
      var stride := StrideAt(cell.level) as real;
      outputs[a, c] == if c == 0 then (old(outputs[a, c]) + cell.x as real) * stride
                       else if c == 1 then (old(outputs[a, c]) + cell.y as real) * stride
                       else if c < 4 then exp(old(outputs[a, c])) * stride
                       else old(outputs[a, c])
  {
    hide ExtentsOf, LevelStart, RowCell, Cells, StrideAt, StridesOf, CellsAcross, CellOf;
    var cells, strides := Cells(ExtentsOf(height, width, p6)), StridesOf(p6);
    CellsOfImage(height, width, p6);
    ok := Broadcasts(cells, outputs.Length0) && outputs.Length1 >= 2;
    if ok {
      RowsPaired(height, width, p6, outputs.Length0);
      DecodeCentres(outputs, cells, strides, exp);
      DecodeSizes(outputs, cells, strides, exp);
    }
  }

  lemma CellsCover(extents: seq<Extent>)
    ensures |Cells(extents)| == Offset(extents)
    ensures forall a :: 0 <= a < |Cells(extents)| ==> InGrid(Cells(extents)[a], extents)
  {
    assert AllShaped(CellGrids(extents), extents);
    ConcatenatedLength(CellGrids(extents), extents);
    forall a | 0 <= a < |Cells(extents)|
      ensures InGrid(Cells(extents)[a], extents)
    {
      ConcatenatedExactElements(extents, a);
    }
  }

  /** The decoded centre lies in its own cell exactly when the raw offset is in [0, 1). */
  lemma CentreNamesItsCell(offset: real, cell: nat, stride: nat)
    requires stride > 0
    ensures (Scaled(offset + cell as real, stride) / stride as real).Floor == cell <==> 0.0 <= offset < 1.0
  {
    var t := offset + cell as real;
    assert Scaled(t, stride) / stride as real == t;
    assert t.Floor == cell <==> cell as real <= t < cell as real + 1.0;
  }

  /**
   * From feature map to box: the prediction row at a cell's anchor is the cell's own channel vector, and it
   * is decoded with that cell's coordinates and its level's stride; so the centre of the decoded box divided
   * by the stride names the cell again, for offsets within the cell.
   */
  lemma PredictionMeetsItsCell(levels: seq<Grid<Row>>, channels: nat, height: nat, width: nat, p6: bool, c: Cell,
                               exp: real -> real)
    requires AllShaped(levels, ExtentsOf(height, width, p6)) && InGrid(c, ExtentsOf(height, width, p6))
    requires channels >= 4 && Channels(levels, channels)
    ensures
      var a := AnchorOf(c, ExtentsOf(height, width, p6));
      var cells, stride := Cells(ExtentsOf(height, width, p6)), StridesOf(p6)[c.level];
      && a < |Concatenated(levels)| == |cells| && cells[a] == c
      && Concatenated(levels)[a] == levels[c.level][c.y][c.x]
      && |Concatenated(levels)[a]| == channels
      && (0.0 <= Concatenated(levels)[a][0] < 1.0 <==>
            (Decoded(Concatenated(levels)[a][0], 0, cells[a], stride, exp) / stride as real).Floor == c.x)
      && (0.0 <= Concatenated(levels)[a][1] < 1.0 <==>
            (Decoded(Concatenated(levels)[a][1], 1, cells[a], stride, exp) / stride as real).Floor == c.y)
  {
    var extents := ExtentsOf(height, width, p6);
    CellsAt(extents, c);
    CellAtAnchor(levels, extents, c);
    ConcatenatedLength(levels, extents);
    var row := levels[c.level][c.y][c.x];
    assert |row| == channels;
    DecodedCentre(row[0], row[1], c, StridesOf(p6)[c.level], exp);
    hide Channels, AllShaped, Concatenated, Cells, AnchorOf, ExtentsOf, StridesOf, InGrid, Decoded;
  }

  lemma DecodedCentre(x: real, y: real, c: Cell, stride: nat, exp: real -> real)
    requires stride > 0
    ensures 0.0 <= x < 1.0 <==> (Decoded(x, 0, c, stride, exp) / stride as real).Floor == c.x
    ensures 0.0 <= y < 1.0 <==> (Decoded(y, 1, c, stride, exp) / stride as real).Floor == c.y
  {
    CentreNamesItsCell(x, c.x, stride);
    CentreNamesItsCell(y, c.y, stride);
  }
}
