/**
 * Just enough of the ONNX operators: Slice with step 2, Conv without padding or bias, and the Reshape,
 * Concat and Transpose of a detection head. All other nodes are uninterpreted.
 */
module Onnx {
  import opened Wrappers
  import opened Levels

  datatype Tensor =
    | Ints(ints: seq<int>)
    | Rank3(rows: seq<Grid<real>>)
    | Rank4(n: nat, c: nat, h: nat, w: nat, data: seq<seq<Grid<real>>>)

  type Elements = (nat, nat, nat, nat) -> real

  function MakeGrid(h: nat, w: nat, f: Elements, a: nat, b: nat): Grid<real> {
    seq(h, y requires 0 <= y < h => seq(w, x requires 0 <= x < w => f(a, b, y, x)))
  }

  function MakeBlock(c: nat, h: nat, w: nat, f: Elements, a: nat): seq<Grid<real>> {
    seq(c, b requires 0 <= b < c => MakeGrid(h, w, f, a, b))
  }

  /** The rank-4 tensor with the given extents and elements. */
  function Make(n: nat, c: nat, h: nat, w: nat, f: Elements): Tensor {
    Rank4(n, c, h, w, seq(n, a requires 0 <= a < n => MakeBlock(c, h, w, f, a)))
  }

  predicate Inside(t: Tensor, a: nat, b: nat, y: nat, x: nat) {
    t.Rank4? && a < |t.data| && b < |t.data[a]| && y < |t.data[a][b]| && x < |t.data[a][b][y]|
  }

  function At(t: Tensor, a: nat, b: nat, y: nat, x: nat): real {
    if Inside(t, a, b, y, x) then t.data[a][b][y][x] else 0.0
  }

  /** The data has the extents that the tensor declares. */
  ghost predicate WellShaped(t: Tensor) {
    t.Rank4? && t == Make(t.n, t.c, t.h, t.w, (a: nat, b: nat, y: nat, x: nat) => At(t, a, b, y, x))
  }

  lemma MakeAt(n: nat, c: nat, h: nat, w: nat, f: Elements, a: nat, b: nat, y: nat, x: nat)
    requires a < n && b < c && y < h && x < w
    ensures At(Make(n, c, h, w, f), a, b, y, x) == f(a, b, y, x)
  {
  }

  ghost predicate Agree(n: nat, c: nat, h: nat, w: nat, f: Elements, g: Elements) {
    forall a: nat, b: nat, y: nat, x: nat :: a < n && b < c && y < h && x < w ==> f(a, b, y, x) == g(a, b, y, x)
  }

  lemma MakeGridEqual(n: nat, c: nat, h: nat, w: nat, f: Elements, g: Elements, a: nat, b: nat)
    requires Agree(n, c, h, w, f, g) && a < n && b < c
    ensures MakeGrid(h, w, f, a, b) == MakeGrid(h, w, g, a, b)
  {
    forall y: nat | y < h
      ensures MakeGrid(h, w, f, a, b)[y] == MakeGrid(h, w, g, a, b)[y]
    {
    }
  }

  lemma MakeBlockEqual(n: nat, c: nat, h: nat, w: nat, f: Elements, g: Elements, a: nat)
    requires Agree(n, c, h, w, f, g) && a < n
    ensures MakeBlock(c, h, w, f, a) == MakeBlock(c, h, w, g, a)
  {
    forall b: nat | b < c
      ensures MakeBlock(c, h, w, f, a)[b] == MakeBlock(c, h, w, g, a)[b]
    {
      MakeGridEqual(n, c, h, w, f, g, a, b);
    }
  }

  lemma MakeEqual(n: nat, c: nat, h: nat, w: nat, f: Elements, g: Elements)
    requires Agree(n, c, h, w, f, g)
    ensures Make(n, c, h, w, f) == Make(n, c, h, w, g)
  {
    forall a: nat | a < n
      ensures Make(n, c, h, w, f).data[a] == Make(n, c, h, w, g).data[a]
    {
      MakeBlockEqual(n, c, h, w, f, g, a);
    }
  }

  // Slice, along one axis with step 2

  /** A start or end index: negative ones count from the end, and all are clamped to the extent. */
  function Clamp(index: int, extent: nat): nat {
    var i := if index < 0 then index + extent else index;
    if i < 0 then 0 else if i > extent then extent else i
  }

  function CountByTwo(start: nat, end: nat): nat {
    if end <= start then 0 else (end - start + 1) / 2
  }

  /** How many elements the slice takes from an axis of the given extent. */
  function Taken(start: int, end: int, extent: nat): nat {
    CountByTwo(Clamp(start, extent), Clamp(end, extent))
  }

  function EveryOtherRow(t: Tensor, start: nat): Elements {
    (a: nat, b: nat, y: nat, x: nat) => At(t, a, b, start + 2 * y, x)
  }

  function EveryOtherColumn(t: Tensor, start: nat): Elements {
    (a: nat, b: nat, y: nat, x: nat) => At(t, a, b, y, start + 2 * x)
  }

  function SliceByTwo(t: Tensor, start: int, end: int, axis: int): Option<Tensor>
    requires t.Rank4?
  {
    var a := if axis < 0 then axis + 4 else axis;
    if a == 0 then var s := Clamp(start, t.n);
      Some(Make(Taken(start, end, t.n), t.c, t.h, t.w, (i: nat, b: nat, y: nat, x: nat) => At(t, s + 2 * i, b, y, x)))
    else if a == 1 then var s := Clamp(start, t.c);
      Some(Make(t.n, Taken(start, end, t.c), t.h, t.w, (i: nat, b: nat, y: nat, x: nat) => At(t, i, s + 2 * b, y, x)))
    else if a == 2 then var s := Clamp(start, t.h);
      Some(Make(t.n, t.c, Taken(start, end, t.h), t.w, EveryOtherRow(t, s)))
    else if a == 3 then var s := Clamp(start, t.w);
      Some(Make(t.n, t.c, t.h, Taken(start, end, t.w), EveryOtherColumn(t, s)))
    else None
  }

  // Conv

  function Sum(n: nat, f: nat -> real): real {
    if n == 0 then 0.0 else Sum(n - 1, f) + f(n - 1)
  }

  // The sum over channels, kernel rows and kernel columns, from the inside out

  function Taps(t: Tensor, k: Tensor, a: nat, m: nat, b: nat, i: nat, y0: nat, x0: nat): nat -> real {
    (j: nat) => At(k, m, b, i, j) * At(t, a, b, y0 + i, x0 + j)
  }

  function TapRows(t: Tensor, k: Tensor, a: nat, m: nat, b: nat, y0: nat, x0: nat): nat -> real
    requires k.Rank4?
  {
    (i: nat) => Sum(k.w, Taps(t, k, a, m, b, i, y0, x0))
  }

  function ChannelSums(t: Tensor, k: Tensor, a: nat, m: nat, y0: nat, x0: nat): nat -> real
    requires k.Rank4?
  {
    (b: nat) => Sum(k.h, TapRows(t, k, a, m, b, y0, x0))
  }

  function Window(t: Tensor, k: Tensor, a: nat, m: nat, y0: nat, x0: nat): real
    requires t.Rank4? && k.Rank4?
  {
    Sum(t.c, ChannelSums(t, k, a, m, y0, x0))
  }

  function WindowElements(t: Tensor, k: Tensor, strideH: nat, strideW: nat): Elements
    requires t.Rank4? && k.Rank4?
  {
    (a: nat, m: nat, y: nat, x: nat) => Window(t, k, a, m, y * strideH, x * strideW)
  }

  function Convolve(t: Tensor, k: Tensor, strideH: nat, strideW: nat): Option<Tensor>
    requires t.Rank4? && k.Rank4?
  {
    if strideH == 0 || strideW == 0 || k.c != t.c || k.h > t.h || k.w > t.w then None
    else Some(Make(t.n, k.n, (t.h - k.h) / strideH + 1, (t.w - k.w) / strideW + 1,
                   WindowElements(t, k, strideH, strideW)))
  }

  // The detection head

  /** Reshape (N, C, H, W) to (N, C, H*W). */
  function MergeSpatial(t: Tensor): Tensor
    requires t.Rank4?
  {
    Rank3(seq(|t.data|, a requires 0 <= a < |t.data| =>
      seq(|t.data[a]|, b requires 0 <= b < |t.data[a]| => Flatten(t.data[a][b]))))
  }

  /** The rows of equal position in all parts, joined. */
  function JoinedRow(parts: seq<seq<Grid<real>>>, a: nat, b: nat): seq<real>
    requires forall p :: 0 <= p < |parts| ==> a < |parts[p]| && b < |parts[p][a]|
  {
    if parts == [] then [] else JoinedRow(parts[..|parts| - 1], a, b) + parts[|parts| - 1][a][b]
  }

  predicate SameLeading(parts: seq<seq<Grid<real>>>, n: nat, c: nat) {
    forall p :: 0 <= p < |parts| ==> |parts[p]| == n && forall a :: 0 <= a < n ==> |parts[p][a]| == c
  }

  /** Concat of rank-3 tensors along the last axis. */
  function ConcatLast(parts: seq<seq<Grid<real>>>, n: nat, c: nat): Tensor
    requires SameLeading(parts, n, c)
  {
    Rank3(seq(n, a requires 0 <= a < n => seq(c, b requires 0 <= b < c => JoinedRow(parts, a, b))))
  }

  /** Transpose of the last two axes. */
  function TransposeLast(t: Tensor): Option<Tensor>
    requires t.Rank3?
  {
    if forall a, b :: 0 <= a < |t.rows| && 0 <= b < |t.rows[a]| ==> |t.rows[a][b]| == |t.rows[a][0]| then
      Some(Rank3(seq(|t.rows|, a requires 0 <= a < |t.rows| => Transposed(t.rows[a]))))
    else None
  }

  function Transposed(g: Grid<real>): Grid<real>
    requires forall b :: 0 <= b < |g| ==> |g[b]| == |g[0]|
  {
    if g == [] then [] else
    seq(|g[0]|, x requires 0 <= x < |g[0]| => seq(|g|, b requires 0 <= b < |g| => g[b][x]))
  }

  // Graphs

  datatype Attributes =
    | NoAttributes
    | ConvAttributes(kernelShape: (nat, nat), strides: (nat, nat))
    | Axis(axis: int)
    | Perm(perm: seq<int>)
    | OtherAttributes(text: string)

  datatype Node = Node(op: string, name: string, inputs: seq<string>, outputs: seq<string>, attributes: Attributes)

  datatype Initializer = Initializer(name: string, value: Tensor)

  type Env = map<string, Tensor>

  /** The meaning of all nodes that are not interpreted here. */
  type OtherOps = (string, Attributes, seq<Option<Tensor>>) -> seq<Option<Tensor>>

  /** The data of rank-3 arguments, if all arguments are of rank 3. */
  function AllRank3(args: seq<Option<Tensor>>): Option<seq<seq<Grid<real>>>> {
    if args == [] then Some([]) else
    var before, last := AllRank3(args[..|args| - 1]), args[|args| - 1];
    if before.Some? && last.Some? && last.value.Rank3? then Some(before.value + [last.value.rows]) else None
  }

  predicate IsSliceByTwo(op: string, args: seq<Option<Tensor>>) {
    && op == "Slice" && |args| == 5
    && args[0].Some? && args[0].value.Rank4?
    && (forall i :: 1 <= i < 5 ==> args[i].Some? && args[i].value.Ints? && |args[i].value.ints| == 1)
    && args[4].value.ints[0] == 2
  }

  predicate IsConv(op: string, attributes: Attributes, args: seq<Option<Tensor>>) {
    && op == "Conv" && attributes.ConvAttributes? && |args| == 2
    && args[0].Some? && args[0].value.Rank4? && args[1].Some? && args[1].value.Rank4?
  }

  /** The target shape (N, C, H*W), written out or with the last extent left to be inferred. */
  predicate MergesSpatial(shape: seq<int>, t: Tensor)
    requires t.Rank4?
  {
    || shape == [t.n as int, t.c as int, -1]
    || (t.h > 0 && t.w > 0 && shape == [t.n as int, t.c as int, t.h * t.w])
  }

  predicate IsSpatialReshape(op: string, args: seq<Option<Tensor>>) {
    && op == "Reshape" && |args| == 2
    && args[0].Some? && args[0].value.Rank4?
    && args[1].Some? && args[1].value.Ints? && MergesSpatial(args[1].value.ints, args[0].value)
  }

  function EvalNode(op: string, attributes: Attributes, args: seq<Option<Tensor>>,
                    others: OtherOps): seq<Option<Tensor>> {
    if IsSliceByTwo(op, args) then
      [SliceByTwo(args[0].value, args[1].value.ints[0], args[2].value.ints[0], args[3].value.ints[0])]
    else if IsConv(op, attributes, args) then
      [Convolve(args[0].value, args[1].value, attributes.strides.0, attributes.strides.1)]
    else if IsSpatialReshape(op, args) then [Some(MergeSpatial(args[0].value))]
    else if op == "Concat" && attributes == Axis(2) && args != [] && AllRank3(args).Some? then
      var parts := AllRank3(args).value;
      [if parts != [] && parts[0] != [] && SameLeading(parts, |parts[0]|, |parts[0][0]|)
       then Some(ConcatLast(parts, |parts[0]|, |parts[0][0]|)) else None]
    else if op == "Transpose" && attributes == Perm([0, 2, 1])
      && |args| == 1 && args[0].Some? && args[0].value.Rank3? then
      [TransposeLast(args[0].value)]
    else others(op, attributes, args)
  }

  function Lookup(env: Env, name: string): Option<Tensor> {
    if name in env then Some(env[name]) else None
  }

  function Args(env: Env, names: seq<string>): (args: seq<Option<Tensor>>)
    ensures |args| == |names|
  {
    seq(|names|, i requires 0 <= i < |names| => Lookup(env, names[i]))
  }

  /** Binds the outputs of a node; an output without a value is unbound. */
  function Bind(env: Env, names: seq<string>, values: seq<Option<Tensor>>): Env {
    if names == [] then env else
    var last := |names| - 1;
    var before := Bind(env, names[..last], values);
    if last < |values| && values[last].Some? then before[names[last] := values[last].value] else before - {names[last]}
  }

  function EvalStep(env: Env, node: Node, others: OtherOps): Env {
    Bind(env, node.outputs, EvalNode(node.op, node.attributes, Args(env, node.inputs), others))
  }

  /** Evaluation of the nodes in list order. */
  function Eval(nodes: seq<Node>, env: Env, others: OtherOps): Env {
    if nodes == [] then env else EvalStep(Eval(nodes[..|nodes| - 1], env, others), nodes[|nodes| - 1], others)
  }

  /** Indices from the end, and indices beyond either end. */
  lemma ClampedIndices(index: int, extent: nat)
    ensures 0 <= index <= extent ==> Clamp(index, extent) == index
    ensures 0 - extent <= index < 0 ==> Clamp(index, extent) == extent + index
    ensures index > extent ==> Clamp(index, extent) == extent
    ensures index < 0 - extent ==> Clamp(index, extent) == 0
  {
  }

  /** A slice takes every second index from its start on that is before its end. */
  lemma TakenIndices(start: int, end: int, extent: nat, i: nat)
    ensures i < Taken(start, end, extent) <==> Clamp(start, extent) + 2 * i < Clamp(end, extent)
  {
  }
}
