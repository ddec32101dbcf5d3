/** The removed network head and its reassembly on the host compute the same predictions. */
module HostAssembly {
  import opened Wrappers
  import opened Levels
  import opened Decoder
  import opened Onnx

  /** One image's feature map, channels first. */
  type Chw = seq<Grid<real>>

  ghost predicate ShapedChw(t: Chw, channels: nat, e: Extent) {
    |t| == channels && forall b :: 0 <= b < channels ==> Shaped(t[b], e.h, e.w)
  }

  ghost predicate Branches(maps: seq<Chw>, channels: nat, extents: seq<Extent>) {
    |maps| == |extents| && forall l :: 0 <= l < |maps| ==> ShapedChw(maps[l], channels, extents[l])
  }

  /** The host's transpose to channels last. */
  function ToHwc(t: Chw, e: Extent): Grid<Row>
    requires forall b :: 0 <= b < |t| ==> |t[b]| == e.h && forall y :: 0 <= y < e.h ==> |t[b][y]| == e.w
  {
    seq(e.h, y requires 0 <= y < e.h => seq(e.w, x requires 0 <= x < e.w =>
      seq(|t|, b requires 0 <= b < |t| => t[b][y][x])))
  }

  /** A runtime output (N, C, H, W), transposed to (N, H, W, C). */
  function ToNhwc(t: Tensor): Array {
    if t.Rank4? && forall a, b, y :: 0 <= a < |t.data| && 0 <= b < |t.data[a]| && 0 <= y < |t.data[a][b]| ==>
      |t.data[a][b]| == t.h && |t.data[a][b][y]| == t.w
    then Batch(seq(|t.data|, a requires 0 <= a < |t.data| => ImageToHwc(t.data[a], Extent(t.h, t.w))), t.c)
    else OtherRank
  }

  function ImageToHwc(image: Chw, e: Extent): Grid<Row> {
    if forall b :: 0 <= b < |image| ==> |image[b]| == e.h && forall y :: 0 <= y < e.h ==> |image[b][y]| == e.w
    then ToHwc(image, e) else []
  }

  lemma OneImageToNhwc(image: Chw, channels: nat, e: Extent)
    requires ShapedChw(image, channels, e)
    ensures ToNhwc(Rank4(1, channels, e.h, e.w, [image])) == Batch([ToHwc(image, e)], channels)
  {
  }

  ghost function HwcArrays(maps: seq<Chw>, channels: nat, extents: seq<Extent>): seq<Array>
    requires Branches(maps, channels, extents)
  {
    seq(|maps|, l requires 0 <= l < |maps| => Batch([ToHwc(maps[l], extents[l])], channels))
  }

  /** The host accepts the transposed outputs, and joins their levels. */
  lemma HostAccepts(maps: seq<Chw>, channels: nat, extents: seq<Extent>)
    requires Branches(maps, channels, extents) && maps != [] && channels > 0
    ensures Prediction(HwcArrays(maps, channels, extents)) == Some(Concatenated(HwcLevels(maps, channels, extents)))
  {
    var arrays := HwcArrays(maps, channels, extents);
    assert arrays[..|maps|] == arrays;
    LevelsOfArrays(maps, channels, extents, |maps|);
    assert HwcLevels(maps, channels, extents)[..|maps|] == HwcLevels(maps, channels, extents);
  }

  lemma {:induction false} LevelsOfArrays(maps: seq<Chw>, channels: nat, extents: seq<Extent>, n: nat)
    requires Branches(maps, channels, extents) && channels > 0 && n <= |maps|
    ensures LevelsOf(HwcArrays(maps, channels, extents)[..n]) == Some(HwcLevels(maps, channels, extents)[..n])
  {
    var arrays, levels := HwcArrays(maps, channels, extents), HwcLevels(maps, channels, extents);
    if n > 0 {
      LevelsOfArrays(maps, channels, extents, n - 1);
      assert arrays[..n][..n - 1] == arrays[..n - 1];
      assert levels[..n] == levels[..n - 1] + [levels[n - 1]];
    }
  }

  ghost function HwcLevels(maps: seq<Chw>, channels: nat, extents: seq<Extent>): seq<Grid<Row>>
    requires Branches(maps, channels, extents)
  {
    seq(|maps|, l requires 0 <= l < |maps| => ToHwc(maps[l], extents[l]))
  }

  /** One channel of every level. */
  ghost function ChannelOf(maps: seq<Chw>, channels: nat, extents: seq<Extent>, b: nat): seq<Grid<real>>
    requires Branches(maps, channels, extents) && b < channels
  {
    seq(|maps|, l requires 0 <= l < |maps| => maps[l][b])
  }

  /** The branches after their Reshape, as the Concat node receives them (batch of one). */
  ghost function Reshaped(maps: seq<Chw>): seq<seq<Grid<real>>> {
    seq(|maps|, l requires 0 <= l < |maps| =>
      [seq(|maps[l]|, b requires 0 <= b < |maps[l]| => Flatten(maps[l][b]))])
  }

  lemma {:induction false} JoinedIsConcatenated(maps: seq<Chw>, channels: nat, extents: seq<Extent>, b: nat)
    requires Branches(maps, channels, extents) && b < channels
    ensures JoinedRow(Reshaped(maps), 0, b) == Concatenated(ChannelOf(maps, channels, extents, b))
  {
    if maps != [] {
      var last := |maps| - 1;
      assert Reshaped(maps)[..last] == Reshaped(maps[..last]);
      assert ChannelOf(maps, channels, extents, b)[..last] == ChannelOf(maps[..last], channels, extents[..last], b);
      JoinedIsConcatenated(maps[..last], channels, extents[..last], b);
    }
  }

  /** At an anchor, both routes hold the value of one channel at the anchor's cell. */
  lemma BothRoutesAt(maps: seq<Chw>, channels: nat, extents: seq<Extent>, a: nat, b: nat)
    requires Branches(maps, channels, extents) && a < Offset(extents) && b < channels
    ensures |JoinedRow(Reshaped(maps), 0, b)| == Offset(extents) == |Concatenated(HwcLevels(maps, channels, extents))|
    ensures |Concatenated(HwcLevels(maps, channels, extents))[a]| == channels
    ensures JoinedRow(Reshaped(maps), 0, b)[a] == Concatenated(HwcLevels(maps, channels, extents))[a][b]
  {
    var channel, hwc := ChannelOf(maps, channels, extents, b), HwcLevels(maps, channels, extents);
    assert AllShaped(channel, extents);
    HwcShaped(maps, channels, extents);
    JoinedIsConcatenated(maps, channels, extents, b);
    ConcatenatedLength(channel, extents);
    ConcatenatedLength(hwc, extents);
    CellsCover(extents);
    ConcatenatedExactElements(extents, a);
    var c := Cells(extents)[a];
    CellAtAnchor(channel, extents, c);
    CellAtAnchor(hwc, extents, c);
    assert ShapedChw(maps[c.level], channels, extents[c.level]);
  }

  lemma HwcShaped(maps: seq<Chw>, channels: nat, extents: seq<Extent>)
    requires Branches(maps, channels, extents)
    ensures AllShaped(HwcLevels(maps, channels, extents), extents)
  {
  }

  lemma JoinedLength(maps: seq<Chw>, channels: nat, extents: seq<Extent>, b: nat)
    requires Branches(maps, channels, extents) && b < channels
    ensures |JoinedRow(Reshaped(maps), 0, b)| == Offset(extents)
  {
    JoinedIsConcatenated(maps, channels, extents, b);
    assert AllShaped(ChannelOf(maps, channels, extents, b), extents);
    ConcatenatedLength(ChannelOf(maps, channels, extents, b), extents);
  }

  ghost predicate IsTransposeOf(host: Grid<real>, g: Grid<real>, n: nat) {
    && |host| == n
    && (forall b :: 0 <= b < |g| ==> |g[b]| == n)
    && (forall a :: 0 <= a < n ==> |host[a]| == |g| && forall b :: 0 <= b < |g| ==> host[a][b] == g[b][a])
  }

  lemma TransposeOfOne(g: Grid<real>, host: Grid<real>, n: nat)
    requires g != [] && IsTransposeOf(host, g, n)
    ensures TransposeLast(Rank3([g])) == Some(Rank3([host]))
  {
    forall a | 0 <= a < n
      ensures Transposed(g)[a] == host[a]
    {
    }
    assert Transposed(g) == host;
    assert TransposeLast(Rank3([g])).value.rows == [Transposed(g)];
  }

  lemma HostIsTranspose(maps: seq<Chw>, channels: nat, extents: seq<Extent>)
    requires Branches(maps, channels, extents) && channels > 0 && SameLeading(Reshaped(maps), 1, channels)
    ensures IsTransposeOf(Concatenated(HwcLevels(maps, channels, extents)),
                          ConcatLast(Reshaped(maps), 1, channels).rows[0], Offset(extents))
  {
    var joined, host := ConcatLast(Reshaped(maps), 1, channels).rows[0],
      Concatenated(HwcLevels(maps, channels, extents));
    HwcShaped(maps, channels, extents);
    ConcatenatedLength(HwcLevels(maps, channels, extents), extents);
    forall b | 0 <= b < channels
      ensures |joined[b]| == Offset(extents)
    {
      JoinedLength(maps, channels, extents, b);
    }
    forall a | 0 <= a < Offset(extents)
      ensures |host[a]| == channels && forall b :: 0 <= b < channels ==> host[a][b] == joined[b][a]
    {
      BothRoutesAt(maps, channels, extents, a, 0);
      forall b | 0 <= b < channels
        ensures host[a][b] == joined[b][a]
      {
        BothRoutesAt(maps, channels, extents, a, b);
      }
    }
  }

  /**
   * The network's Reshape, Concat and Transpose yield exactly the list that the host builds from the
   * untouched branches: transpose each to channels last, flatten, join.
   */
  lemma HeadIsReassembled(maps: seq<Chw>, channels: nat, extents: seq<Extent>)
    requires Branches(maps, channels, extents) && channels > 0
    requires SameLeading(Reshaped(maps), 1, channels)
    ensures TransposeLast(ConcatLast(Reshaped(maps), 1, channels))
         == Some(Rank3([Concatenated(HwcLevels(maps, channels, extents))]))
  {
    var concat := ConcatLast(Reshaped(maps), 1, channels);
    HostIsTranspose(maps, channels, extents);
    TransposeOfOne(concat.rows[0], Concatenated(HwcLevels(maps, channels, extents)), Offset(extents));
    assert concat.rows == [concat.rows[0]];
  }
}
