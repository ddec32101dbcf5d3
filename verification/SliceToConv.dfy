/** Replacing a strided Slice by a one-hot Conv: when the two compute the same. */
module SliceToConv {
  import opened Wrappers
  import opened Onnx

  /** The kernel is 1x2 for axis 3, and 2x1 for everything else, also for axes that could not be read. */
  function KernelShape(axis: Option<int>): (nat, nat) {
    if axis == Some(3) then (1, 2) else (2, 1)
  }

  /** The tap that is set, if any. Start 0 sets the first one, whatever the axis. */
  function HotTap(start: Option<int>, axis: Option<int>): Option<(nat, nat)> {
    if start == Some(0) then Some((0, 0))
    else if start == Some(1) then
      if axis == Some(2) then Some((1, 0)) else if axis == Some(3) then Some((0, 1)) else None
    else None
  }

  /** Which tap is set: the first one for start 0, the second one for start 1 on the height or width axis. */
  predicate TapIsSet(start: Option<int>, axis: Option<int>, i: int, j: int) {
    || (start == Some(0) && i == 0 && j == 0)
    || (start == Some(1) && axis == Some(2) && i == 1 && j == 0)
    || (start == Some(1) && axis == Some(3) && i == 0 && j == 1)
  }

  function WeightAt(start: Option<int>, axis: Option<int>, m: nat, b: nat, i: nat, j: nat): real {
    if m == b && HotTap(start, axis) == Some((i, j)) then 1.0 else 0.0
  }

  function Weights(start: Option<int>, axis: Option<int>): Tensor {
    Make(3, 3, KernelShape(axis).0, KernelShape(axis).1,
         (m: nat, b: nat, i: nat, j: nat) => WeightAt(start, axis, m, b, i, j))
  }

  /** The weight array as the rewriting fills it, channel by channel. */
  method BuildWeights(start: Option<int>, axis: Option<int>) returns (w: array4<real>)
    ensures fresh(w) && w.Length0 == 3 && w.Length1 == 3
    ensures (w.Length2, w.Length3) == (if axis == Some(3) then (1, 2) else (2, 1))
    ensures forall m, b, i, j :: 0 <= m < 3 && 0 <= b < 3 && 0 <= i < w.Length2 && 0 <= j < w.Length3 ==>
      w[m, b, i, j] == if m == b && TapIsSet(start, axis, i, j) then 1.0 else 0.0
  {
    var shape := KernelShape(axis);
    w := new real[3, 3, shape.0, shape.1]((m, b, i, j) => 0.0);
    var tap := HotTap(start, axis);
    if tap.Some? {
      for c := 0 to 3
        invariant forall m, b, i, j :: 0 <= m < 3 && 0 <= b < 3 && 0 <= i < w.Length2 && 0 <= j < w.Length3 ==>
          w[m, b, i, j] == if m < c then WeightAt(start, axis, m, b, i, j) else 0.0
      {
        w[c, c, tap.value.0, tap.value.1] := 1.0;
      }
    }
  }

  // One-hot kernels pick an element, zero kernels nothing

  lemma {:induction false} SumZero(n: nat, f: nat -> real)
    requires forall i: nat :: i < n ==> f(i) == 0.0
    ensures Sum(n, f) == 0.0
  {
    if n > 0 {
      SumZero(n - 1, f);
    }
  }

  lemma {:induction false} SumSingle(n: nat, f: nat -> real, k: nat)
    requires k < n && forall i: nat :: i < n && i != k ==> f(i) == 0.0
    ensures Sum(n, f) == f(k)
  {
    if k == n - 1 {
      SumZero(n - 1, f);
    } else {
      SumSingle(n - 1, f, k);
    }
  }

  lemma TapsOfZeroRow(t: Tensor, k: Tensor, a: nat, m: nat, b: nat, i: nat, y0: nat, x0: nat)
    requires k.Rank4? && forall j: nat :: j < k.w ==> At(k, m, b, i, j) == 0.0
    ensures TapRows(t, k, a, m, b, y0, x0)(i) == 0.0
  {
    SumZero(k.w, Taps(t, k, a, m, b, i, y0, x0));
  }

  lemma ZeroChannel(t: Tensor, k: Tensor, a: nat, m: nat, b: nat, y0: nat, x0: nat)
    requires k.Rank4? && forall i: nat, j: nat :: i < k.h && j < k.w ==> At(k, m, b, i, j) == 0.0
    ensures ChannelSums(t, k, a, m, y0, x0)(b) == 0.0
  {
    forall i: nat | i < k.h
      ensures TapRows(t, k, a, m, b, y0, x0)(i) == 0.0
    {
      TapsOfZeroRow(t, k, a, m, b, i, y0, x0);
    }
    SumZero(k.h, TapRows(t, k, a, m, b, y0, x0));
  }

  lemma ZeroWindow(t: Tensor, k: Tensor, a: nat, m: nat, y0: nat, x0: nat)
    requires t.Rank4? && k.Rank4?
    requires forall b: nat, i: nat, j: nat :: b < t.c && i < k.h && j < k.w ==> At(k, m, b, i, j) == 0.0
    ensures Window(t, k, a, m, y0, x0) == 0.0
  {
    forall b: nat | b < t.c
      ensures ChannelSums(t, k, a, m, y0, x0)(b) == 0.0
    {
      ZeroChannel(t, k, a, m, b, y0, x0);
    }
    SumZero(t.c, ChannelSums(t, k, a, m, y0, x0));
  }

  lemma OneHotWindow(t: Tensor, k: Tensor, a: nat, m: nat, y0: nat, x0: nat, ky: nat, kx: nat)
    requires t.Rank4? && k.Rank4? && m < t.c && ky < k.h && kx < k.w
    requires forall b: nat, i: nat, j: nat :: b < t.c && i < k.h && j < k.w ==>
      At(k, m, b, i, j) == if b == m && i == ky && j == kx then 1.0 else 0.0
    ensures Window(t, k, a, m, y0, x0) == At(t, a, m, y0 + ky, x0 + kx)
  {
    forall b: nat | b < t.c && b != m
      ensures ChannelSums(t, k, a, m, y0, x0)(b) == 0.0
    {
      ZeroChannel(t, k, a, m, b, y0, x0);
    }
    SumSingle(t.c, ChannelSums(t, k, a, m, y0, x0), m);
    forall i: nat | i < k.h && i != ky
      ensures TapRows(t, k, a, m, m, y0, x0)(i) == 0.0
    {
      TapsOfZeroRow(t, k, a, m, m, i, y0, x0);
    }
    SumSingle(k.h, TapRows(t, k, a, m, m, y0, x0), ky);
    SumSingle(k.w, Taps(t, k, a, m, m, ky, y0, x0), kx);
  }

  lemma WeightsAt(start: Option<int>, axis: Option<int>, m: nat, b: nat, i: nat, j: nat)
    requires m < 3 && b < 3 && i < KernelShape(axis).0 && j < KernelShape(axis).1
    ensures At(Weights(start, axis), m, b, i, j) == WeightAt(start, axis, m, b, i, j)
  {
    MakeAt(3, 3, KernelShape(axis).0, KernelShape(axis).1,
           (m: nat, b: nat, i: nat, j: nat) => WeightAt(start, axis, m, b, i, j), m, b, i, j);
  }

  /** The tensor has the elements that the array is filled with. */
  lemma WeightsAreSet(start: Option<int>, axis: Option<int>)
    ensures
      var k := Weights(start, axis);
      && k.Rank4? && k.n == 3 && k.c == 3 && (k.h, k.w) == (if axis == Some(3) then (1, 2) else (2, 1))
      && forall m: nat, b: nat, i: nat, j: nat :: m < 3 && b < 3 && i < k.h && j < k.w ==>
           At(k, m, b, i, j) == if m == b && TapIsSet(start, axis, i, j) then 1.0 else 0.0
  {
    WeightsHaveTap(start, axis);
    hide Weights;
  }

  /** A 3-channel kernel that has one tap set in each channel's own filter, or none at all. */
  ghost predicate HasTap(k: Tensor, tap: Option<(nat, nat)>) {
    && k.Rank4? && k.n == 3 && k.c == 3
    && (tap.Some? ==> tap.value.0 < k.h && tap.value.1 < k.w)
    && forall m: nat, b: nat, i: nat, j: nat :: m < 3 && b < 3 && i < k.h && j < k.w ==>
         At(k, m, b, i, j) == if m == b && tap == Some((i, j)) then 1.0 else 0.0
  }

  lemma WeightsHaveTap(start: Option<int>, axis: Option<int>)
    ensures HasTap(Weights(start, axis), HotTap(start, axis))
    ensures Weights(start, axis).h == KernelShape(axis).0 && Weights(start, axis).w == KernelShape(axis).1
  {
    var k := Weights(start, axis);
    forall m: nat, b: nat, i: nat, j: nat | m < 3 && b < 3 && i < k.h && j < k.w
      ensures At(k, m, b, i, j) == WeightAt(start, axis, m, b, i, j)
    {
      WeightsAt(start, axis, m, b, i, j);
    }
  }

  /** What such a kernel computes at an output position. */
  lemma TapWindow(t: Tensor, k: Tensor, tap: Option<(nat, nat)>, a: nat, m: nat, y0: nat, x0: nat)
    requires t.Rank4? && t.c == 3 && m < 3 && HasTap(k, tap)
    ensures Window(t, k, a, m, y0, x0) == Picked(t, tap, a, m, y0, x0)
  {
    if tap.Some? {
      OneHotWindow(t, k, a, m, y0, x0, tap.value.0, tap.value.1);
    } else {
      ZeroWindow(t, k, a, m, y0, x0);
    }
  }

  function Picked(t: Tensor, tap: Option<(nat, nat)>, a: nat, m: nat, y0: nat, x0: nat): real {
    if tap.Some? then At(t, a, m, y0 + tap.value.0, x0 + tap.value.1) else 0.0
  }

  function InsertedConv(t: Tensor, start: Option<int>, axis: Option<int>): Option<Tensor>
    requires t.Rank4?
  {
    Convolve(t, Weights(start, axis), KernelShape(axis).0, KernelShape(axis).1)
  }

  ghost predicate Image(t: Tensor, n: nat, c: nat, h: nat, w: nat) {
    WellShaped(t) && t.n == n && t.c == c && t.h == h && t.w == w
  }

  /**
   * Can the Slice be replaced? The image must have 3 channels, and the kernel must fit. The start must be
   * 0 or 1 on the height or width axis, and the Slice must take exactly half of the extent, rounded down.
   * A negative axis is only understood for the height, and only with start 0.
   */
  predicate Replaces(start: int, end: int, axis: int, c: nat, h: nat, w: nat) {
    && c == 3
    && ((start == 0 && axis in {2, 3, -2}) || (start == 1 && axis in {2, 3}))
    && if axis == 3 then h >= 1 && w >= 2 && Taken(start, end, w) == w / 2
       else h >= 2 && w >= 1 && Taken(start, end, h) == h / 2
  }

  lemma ReplacedAgrees(t: Tensor, n: nat, c: nat, h: nat, w: nat, start: int, end: int, axis: int)
    requires Image(t, n, c, h, w) && Replaces(start, end, axis, c, h, w)
    ensures InsertedConv(t, Some(start), Some(axis)) == SliceByTwo(t, start, end, axis)
  {
    if axis == 3 {
      ReplacedColumns(t, start, end);
    } else {
      ReplacedRows(t, start, end, axis);
    }
  }

  lemma ReplacedColumns(t: Tensor, start: int, end: int)
    requires t.Rank4? && t.c == 3 && t.h >= 1 && t.w >= 2 && start in {0, 1} && Taken(start, end, t.w) == t.w / 2
    ensures InsertedConv(t, Some(start), Some(3)) == SliceByTwo(t, start, end, 3)
  {
    WeightsHaveTap(Some(start), Some(3));
    ConvolveColumns(t, Weights(Some(start), Some(3)), start);
  }

  lemma ConvolveColumns(t: Tensor, k: Tensor, start: nat)
    requires t.Rank4? && t.c == 3 && t.h >= 1 && t.w >= 2 && HasTap(k, Some((0, start))) && k.h == 1 && k.w == 2
    ensures Convolve(t, k, 1, 2) == Some(Make(t.n, 3, t.h, t.w / 2, EveryOtherColumn(t, start)))
  {
    forall a: nat, m: nat, y: nat, x: nat | a < t.n && m < 3 && y < t.h && x < t.w / 2
      ensures WindowElements(t, k, 1, 2)(a, m, y, x) == EveryOtherColumn(t, start)(a, m, y, x)
    {
      TapWindow(t, k, Some((0, start)), a, m, y * 1, x * 2);
    }
    MakeEqual(t.n, 3, t.h, t.w / 2, WindowElements(t, k, 1, 2), EveryOtherColumn(t, start));
  }

  lemma ReplacedRows(t: Tensor, start: int, end: int, axis: int)
    requires t.Rank4? && t.c == 3 && t.h >= 2 && t.w >= 1 && Taken(start, end, t.h) == t.h / 2
    requires (start == 0 && axis in {2, -2}) || (start == 1 && axis == 2)
    ensures InsertedConv(t, Some(start), Some(axis)) == SliceByTwo(t, start, end, axis)
  {
    WeightsHaveTap(Some(start), Some(axis));
    ConvolveRows(t, Weights(Some(start), Some(axis)), start);
  }

  lemma ConvolveRows(t: Tensor, k: Tensor, start: nat)
    requires t.Rank4? && t.c == 3 && t.h >= 2 && t.w >= 1 && HasTap(k, Some((start, 0))) && k.h == 2 && k.w == 1
    ensures Convolve(t, k, 2, 1) == Some(Make(t.n, 3, t.h / 2, t.w, EveryOtherRow(t, start)))
  {
    forall a: nat, m: nat, y: nat, x: nat | a < t.n && m < 3 && y < t.h / 2 && x < t.w
      ensures WindowElements(t, k, 2, 1)(a, m, y, x) == EveryOtherRow(t, start)(a, m, y, x)
    {
      TapWindow(t, k, Some((start, 0)), a, m, y * 2, x * 1);
    }
    MakeEqual(t.n, 3, t.h / 2, t.w, WindowElements(t, k, 2, 1), EveryOtherRow(t, start));
  }

  function One(): Elements { (a: nat, b: nat, y: nat, x: nat) => 1.0 }

  function Ones(n: nat, c: nat, h: nat, w: nat): Tensor { Make(n, c, h, w, One()) }

  lemma OnesIsImage(n: nat, c: nat, h: nat, w: nat)
    ensures Image(Ones(n, c, h, w), n, c, h, w)
  {
    var t := Ones(n, c, h, w);
    forall a: nat, b: nat, y: nat, x: nat | a < n && b < c && y < h && x < w
      ensures At(t, a, b, y, x) == 1.0
    {
      MakeAt(n, c, h, w, One(), a, b, y, x);
    }
    MakeEqual(n, c, h, w, One(), (a: nat, b: nat, y: nat, x: nat) => At(t, a, b, y, x));
  }

  lemma OnesAt(n: nat, c: nat, h: nat, w: nat, y: nat, x: nat)
    requires n >= 1 && c >= 1 && y < h && x < w
    ensures At(Ones(n, c, h, w), 0, 0, y, x) == 1.0
  {
    MakeAt(n, c, h, w, One(), 0, 0, y, x);
  }

  predicate Fits(axis: int, h: nat, w: nat) {
    KernelShape(Some(axis)).0 <= h && KernelShape(Some(axis)).1 <= w
  }

  /** With no tap set the Conv yields zero where the slice of an all-one image yields one. */
  lemma NoTapInserted(n: nat, h: nat, w: nat, start: int, axis: int)
    requires n >= 1 && Fits(axis, h, w) && HotTap(Some(start), Some(axis)) == None
    ensures At(InsertedConv(Ones(n, 3, h, w), Some(start), Some(axis)).value, 0, 0, 0, 0) == 0.0
  {
    var t, k, shape := Ones(n, 3, h, w), Weights(Some(start), Some(axis)), KernelShape(Some(axis));
    WeightsHaveTap(Some(start), Some(axis));
    TapWindow(t, k, None, 0, 0, 0, 0);
    FirstWindow(t, k, shape.0, shape.1);
  }

  /** The first element of a convolution. */
  lemma FirstWindow(t: Tensor, k: Tensor, strideH: nat, strideW: nat)
    requires t.Rank4? && k.Rank4? && t.n >= 1 && k.n >= 1 && Convolve(t, k, strideH, strideW).Some?
    ensures At(Convolve(t, k, strideH, strideW).value, 0, 0, 0, 0) == Window(t, k, 0, 0, 0, 0)
  {
    MakeAt(t.n, k.n, (t.h - k.h) / strideH + 1, (t.w - k.w) / strideW + 1, WindowElements(t, k, strideH, strideW),
           0, 0, 0, 0);
    assert 0 * strideH == 0 && 0 * strideW == 0;
  }

  lemma SliceOfOnes(n: nat, h: nat, w: nat, start: int, end: int, axis: int)
    requires n >= 1 && h >= 1 && w >= 1 && axis in {2, 3, -2}
    requires Taken(start, end, if axis == 3 then w else h) > 0
    ensures At(SliceByTwo(Ones(n, 3, h, w), start, end, axis).value, 0, 0, 0, 0) == 1.0
  {
    var t := Ones(n, 3, h, w);
    if axis == 3 {
      var s := Clamp(start, w);
      MakeAt(n, 3, h, Taken(start, end, w), EveryOtherColumn(t, s), 0, 0, 0, 0);
      OnesAt(n, 3, h, w, 0, s);
    } else {
      var s := Clamp(start, h);
      MakeAt(n, 3, Taken(start, end, h), w, EveryOtherRow(t, s), 0, 0, 0, 0);
      OnesAt(n, 3, h, w, s, 0);
    }
  }

  lemma NotReplacedDiffers(n: nat, c: nat, h: nat, w: nat, start: int, end: int, axis: int)
    requires n >= 1 && -4 <= axis < 4 && !Replaces(start, end, axis, c, h, w)
    ensures InsertedConv(Ones(n, c, h, w), Some(start), Some(axis)) != SliceByTwo(Ones(n, c, h, w), start, end, axis)
  {
    if c == 3 && Fits(axis, h, w) {
      FittingDiffers(n, h, w, start, end, axis);
    }
  }

  lemma FittingDiffers(n: nat, h: nat, w: nat, start: int, end: int, axis: int)
    requires n >= 1 && -4 <= axis < 4 && Fits(axis, h, w) && !Replaces(start, end, axis, 3, h, w)
    ensures InsertedConv(Ones(n, 3, h, w), Some(start), Some(axis)) != SliceByTwo(Ones(n, 3, h, w), start, end, axis)
  {
    var t := Ones(n, 3, h, w);
    var conv, slice := InsertedConv(t, Some(start), Some(axis)).value, SliceByTwo(t, start, end, axis).value;
    if axis in {2, 3, -2} {
      if Taken(start, end, if axis == 3 then w else h) == (if axis == 3 then w else h) / 2 {
        NoTapInserted(n, h, w, start, axis);
        SliceOfOnes(n, h, w, start, end, axis);
      } else {
        assert slice.h != conv.h || slice.w != conv.w;
      }
    } else {
      assert slice.h == h != conv.h;
    }
  }

  /**
   * The rewriting of one node is right, for every image of the given extents, exactly when the slice's
   * start, end and axis satisfy `Replaces` on them.
   */
  lemma ReplacementIsExact(n: nat, c: nat, h: nat, w: nat, start: int, end: int, axis: int)
    requires n >= 1 && -4 <= axis < 4
    ensures (forall t :: Image(t, n, c, h, w) ==>
              InsertedConv(t, Some(start), Some(axis)) == SliceByTwo(t, start, end, axis))
      <==> Replaces(start, end, axis, c, h, w)
  {
    if Replaces(start, end, axis, c, h, w) {
      forall t | Image(t, n, c, h, w)
        ensures InsertedConv(t, Some(start), Some(axis)) == SliceByTwo(t, start, end, axis)
      {
        ReplacedAgrees(t, n, c, h, w, start, end, axis);
      }
    } else {
      OnesIsImage(n, c, h, w);
      NotReplacedDiffers(n, c, h, w, start, end, axis);
    }
  }

  /** A slice to the end of the axis is replaced rightly exactly for an even extent, or with start 1. */
  lemma FullSlices(start: int, end: int, extent: nat)
    requires start in {0, 1} && end >= extent >= 2
    ensures Taken(start, end, extent) == extent / 2 <==> extent % 2 == 0 || start == 1
  {
  }
}
