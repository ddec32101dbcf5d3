/** The pruned graph's outputs, put together on the host, are the output of the whole graph. */
module PruneMeaning {
  import opened Wrappers
  import opened Levels
  import opened Decoder
  import opened Onnx
  import opened GraphMeaning
  import opened TailSurgery
  import opened PruneTail
  import opened HostAssembly
  import opened Seqs

  ghost predicate New(renames: map<string, string>, x: string) {
    exists y :: y in renames && renames[y] == x
  }

  /** Values outside the cut agree, and a renamed tensor is found under its new name. */
  ghost predicate Related(a: Env, b: Env, gone: set<string>, renames: map<string, string>) {
    && (forall x :: x !in gone && x !in renames && !New(renames, x) ==> Lookup(a, x) == Lookup(b, x))
    && (forall x :: x in renames && x !in gone ==> Lookup(b, renames[x]) == Lookup(a, x))
  }

  ghost predicate InjectiveOutside(renames: map<string, string>, gone: set<string>) {
    forall x, y :: x in renames && y in renames && x !in gone && y !in gone && renames[x] == renames[y] ==> x == y
  }

  function RenamedNames(names: seq<string>, renames: map<string, string>): seq<string> {
    seq(|names|, i requires 0 <= i < |names| => Rename(renames, names[i]))
  }

  /** Neither a name that goes nor a new name. */
  ghost predicate Ordinary(x: string, gone: set<string>, renames: map<string, string>) {
    x !in gone && !New(renames, x)
  }

  lemma BindOneRelated(a: Env, b: Env, x: string, value: Option<Tensor>,
                       gone: set<string>, renames: map<string, string>)
    requires Related(a, b, gone, renames) && InjectiveOutside(renames, gone) && Ordinary(x, gone, renames)
    ensures Related(if value.Some? then a[x := value.value] else a - {x},
                    if value.Some? then b[Rename(renames, x) := value.value] else b - {Rename(renames, x)},
                    gone, renames)
  {
    var a' := if value.Some? then a[x := value.value] else a - {x};
    var b' := if value.Some? then b[Rename(renames, x) := value.value] else b - {Rename(renames, x)};
    forall y | y !in gone && y !in renames && !New(renames, y)
      ensures Lookup(a', y) == Lookup(b', y)
    {
      if x in renames {
        assert New(renames, Rename(renames, x));
      }
    }
    forall y | y in renames && y !in gone
      ensures Lookup(b', renames[y]) == Lookup(a', y)
    {
      assert New(renames, renames[y]);
    }
  }

  lemma {:induction false} BindRelated(a: Env, b: Env, names: seq<string>, values: seq<Option<Tensor>>,
                                       gone: set<string>, renames: map<string, string>)
    requires Related(a, b, gone, renames) && InjectiveOutside(renames, gone)
    requires forall i :: 0 <= i < |names| ==> Ordinary(names[i], gone, renames)
    ensures Related(Bind(a, names, values), Bind(b, RenamedNames(names, renames), values), gone, renames)
  {
    if names != [] {
      var last := |names| - 1;
      BindRelated(a, b, names[..last], values, gone, renames);
      assert RenamedNames(names, renames)[..last] == RenamedNames(names[..last], renames);
      BindOneRelated(Bind(a, names[..last], values), Bind(b, RenamedNames(names[..last], renames), values), names[last],
                     if last < |values| then values[last] else None, gone, renames);
    }
  }

  lemma {:induction false} BindGone(a: Env, b: Env, names: seq<string>, values: seq<Option<Tensor>>,
                                    gone: set<string>, renames: map<string, string>)
    requires Related(a, b, gone, renames) && forall i :: 0 <= i < |names| ==> names[i] in gone
    ensures Related(Bind(a, names, values), b, gone, renames)
  {
    if names != [] {
      BindGone(a, b, names[..|names| - 1], values, gone, renames);
    }
  }

  /** Kept nodes neither read nor write a name concerned by the cut, but for the outputs renamed. */
  ghost predicate Clear(nodes: seq<Node>, gone: set<string>, renames: map<string, string>) {
    && InjectiveOutside(renames, gone)
    && forall i :: 0 <= i < |nodes| ==> ClearNode(nodes[i], gone, renames)
  }

  ghost predicate ClearNode(node: Node, gone: set<string>, renames: map<string, string>) {
    if Gone(node, gone) then forall k :: 0 <= k < |node.outputs| ==> node.outputs[k] in gone
    else
      && (forall k :: 0 <= k < |node.outputs| ==> Ordinary(node.outputs[k], gone, renames))
      && (forall k :: 0 <= k < |node.inputs| ==> Ordinary(node.inputs[k], gone, renames) && node.inputs[k] !in renames)
  }

  lemma NodeRelated(a: Env, b: Env, node: Node, others: OtherOps, gone: set<string>, renames: map<string, string>)
    requires Related(a, b, gone, renames) && Clear([node], gone, renames)
    ensures Related(EvalStep(a, node, others),
                    if Gone(node, gone) then b else EvalStep(b, Renamed(node, renames), others), gone, renames)
  {
    assert node == [node][0];
    var values := EvalNode(node.op, node.attributes, Args(a, node.inputs), others);
    if Gone(node, gone) {
      BindGone(a, b, node.outputs, values, gone, renames);
    } else {
      assert Args(a, node.inputs) == Args(b, node.inputs);
      BindRelated(a, b, node.outputs, values, gone, renames);
      assert Renamed(node, renames).outputs == RenamedNames(node.outputs, renames);
    }
  }

  lemma ClearPrefix(nodes: seq<Node>, gone: set<string>, renames: map<string, string>)
    requires nodes != [] && Clear(nodes, gone, renames)
    ensures Clear(nodes[..|nodes| - 1], gone, renames) && Clear([nodes[|nodes| - 1]], gone, renames)
  {
    var before := nodes[..|nodes| - 1];
    assert forall i :: 0 <= i < |before| ==> before[i] == nodes[i];
  }

  /** Pruning keeps all values outside the cut. */
  lemma {:induction false} PrunedEval(nodes: seq<Node>, env: Env, others: OtherOps, gone: set<string>,
                                      renames: map<string, string>)
    requires Clear(nodes, gone, renames) && Related(env, env, gone, renames)
    ensures Related(Eval(nodes, env, others), Eval(Pruned(nodes, gone, renames), env, others), gone, renames)
  {
    if nodes != [] {
      var before, last := nodes[..|nodes| - 1], nodes[|nodes| - 1];
      ClearPrefix(nodes, gone, renames);
      hide Clear, Related, EvalStep;
      PrunedEval(before, env, others, gone, renames);
      var list := Pruned(nodes, gone, renames);
      NodeRelated(Eval(before, env, others), Eval(Pruned(before, gone, renames), env, others), last, others, gone,
                  renames);
      if Gone(last, gone) {
        assert list == Pruned(before, gone, renames);
      } else {
        assert list[..|list| - 1] == Pruned(before, gone, renames);
      }
    }
  }

  // The cut of the detection head

  /** A name that the head writes, or that the cut introduces. */
  ghost predicate HeadName(nodes: seq<Node>, t: Tail, x: string)
    requires HasTail(nodes, t)
  {
    || x == OUTPUT || x == FirstOut(nodes, t.concat)
    || (exists j :: 0 <= j < |t.reshapes| && x == FirstOut(nodes, t.reshapes[j]))
    || (exists j :: 0 <= j < |t.branches| && (x == FirstOut(nodes, t.branches[j]) || x == OutName(j)))
  }

  /** Only the head reads the branches' last tensors and its own, and the environment binds none of them. */
  ghost predicate HeadIsPrivate(nodes: seq<Node>, t: Tail, env: Env)
    requires HasTail(nodes, t)
  {
    && (forall i, k :: 0 <= i < |nodes| && !HeadNode(t, i) && 0 <= k < |nodes[i].inputs| ==>
          !HeadName(nodes, t, nodes[i].inputs[k]))
    && (forall x :: x in env ==> !HeadName(nodes, t, x))
  }

  lemma {:induction false} GoneNames(nodes: seq<Node>, t: Tail, n: nat, x: string)
    requires HasTail(nodes, t) && n <= |t.reshapes| && x in GoneAt(nodes, t, n)
    ensures x == OUTPUT || exists j :: 0 <= j < n && x == FirstOut(nodes, t.reshapes[j])
  {
    if n > 0 && x != FirstOut(nodes, t.reshapes[n - 1]) {
      GoneNames(nodes, t, n - 1, x);
    }
  }

  lemma CutNames(nodes: seq<Node>, t: Tail, x: string)
    requires HasTail(nodes, t)
    ensures
      var gone, renames := CutGone(nodes, t), CutRenames(nodes, t);
      x in gone || x in renames || New(renames, x) ==> HeadName(nodes, t, x)
  {
    var n := |t.branches|;
    var gone, renames := GoneAt(nodes, t, n) + {FirstOut(nodes, t.concat)}, RenamesAt(nodes, t, n);
    if x in GoneAt(nodes, t, n) {
      GoneNames(nodes, t, n, x);
    }
    if x in renames {
      RenamesTo(nodes, t, n, x);
    }
    if New(renames, x) {
      var y :| y in renames && renames[y] == x;
      RenamesTo(nodes, t, n, y);
    }
  }

  lemma HeadNodesGo(nodes: seq<Node>, t: Tail, i: nat)
    requires HasTail(nodes, t) && i < |nodes|
    ensures
      var gone := CutGone(nodes, t);
      Gone(nodes[i], gone) <==> HeadNode(t, i)
  {
    GoneIs(nodes, t, |t.reshapes|, i);
    assert t.reshapes[..|t.reshapes|] == t.reshapes;
    SameOutput(nodes, i, t.concat);
  }

  lemma RenamesInjective(nodes: seq<Node>, t: Tail)
    requires HasTail(nodes, t)
    ensures
      var gone, renames := CutGone(nodes, t), CutRenames(nodes, t);
      InjectiveOutside(renames, gone)
  {
    var n := |t.branches|;
    var gone, renames := GoneAt(nodes, t, n) + {FirstOut(nodes, t.concat)}, RenamesAt(nodes, t, n);
    forall x, y | x in renames && y in renames && x !in gone && y !in gone && renames[x] == renames[y]
      ensures x == y
    {
      RenamesTo(nodes, t, n, x);
      RenamesTo(nodes, t, n, y);
      var i :| 0 <= i < n && x == FirstOut(nodes, t.branches[i]);
      var j :| 0 <= j < n && y == FirstOut(nodes, t.branches[j]);
      OutNamesDistinct(i, j);
    }
  }

  lemma {:induction false} KeptNotGone(nodes: seq<Node>, t: Tail, n: nat, i: nat, k: nat)
    requires HasTail(nodes, t) && n <= |t.reshapes| && i < |nodes| && !HeadNode(t, i) && k < |nodes[i].outputs|
    ensures nodes[i].outputs[k] !in GoneAt(nodes, t, n) && nodes[i].outputs[k] != FirstOut(nodes, t.concat)
  {
    if n == 0 {
      assert FirstOut(nodes, t.transpose) == OUTPUT;
    } else {
      KeptNotGone(nodes, t, n - 1, i, k);
      assert t.reshapes[n - 1] in t.reshapes;
    }
  }

  /** What a kept node writes is neither gone nor a new name. */
  lemma KeptWritesOrdinary(nodes: seq<Node>, t: Tail, i: nat, k: nat)
    requires HasTail(nodes, t) && i < |nodes| && !HeadNode(t, i) && k < |nodes[i].outputs|
    ensures Ordinary(nodes[i].outputs[k], CutGone(nodes, t),
                     CutRenames(nodes, t))
  {
    var n := |t.branches|;
    var x, renames := nodes[i].outputs[k], RenamesAt(nodes, t, n);
    KeptNotGone(nodes, t, n, i, k);
    if New(renames, x) {
      var y :| y in renames && renames[y] == x;
      RenamedIsNew(nodes, t, n, y, i, k);
    }
  }

  lemma HeadIsClear(nodes: seq<Node>, t: Tail, env: Env)
    requires HasTail(nodes, t) && HeadIsPrivate(nodes, t, env)
    ensures
      var gone, renames := CutGone(nodes, t), CutRenames(nodes, t);
      Clear(nodes, gone, renames) && Related(env, env, gone, renames)
  {
    RenamesInjective(nodes, t);
    RenamesUnbound(nodes, t, env);
    forall i | 0 <= i < |nodes|
      ensures ClearNode(nodes[i], CutGone(nodes, t), CutRenames(nodes, t))
    {
      ClearAt(nodes, t, env, i);
    }
  }

  lemma ClearAt(nodes: seq<Node>, t: Tail, env: Env, i: nat)
    requires HasTail(nodes, t) && HeadIsPrivate(nodes, t, env) && i < |nodes|
    ensures ClearNode(nodes[i], CutGone(nodes, t), CutRenames(nodes, t))
  {
    HeadNodesGo(nodes, t, i);
    if HeadNode(t, i) {
      HeadWritesOne(nodes, t, i);
    } else {
      forall k | 0 <= k < |nodes[i].outputs|
        ensures Ordinary(nodes[i].outputs[k], CutGone(nodes, t),
                         CutRenames(nodes, t))
      {
        KeptWritesOrdinary(nodes, t, i, k);
      }
      forall k | 0 <= k < |nodes[i].inputs|
        ensures !HeadName(nodes, t, nodes[i].inputs[k])
      {
      }
      forall k | 0 <= k < |nodes[i].inputs|
        ensures Ordinary(nodes[i].inputs[k], CutGone(nodes, t),
                         CutRenames(nodes, t))
        ensures nodes[i].inputs[k] !in CutRenames(nodes, t)
      {
        CutNames(nodes, t, nodes[i].inputs[k]);
      }
    }
  }

  lemma HeadWritesOne(nodes: seq<Node>, t: Tail, i: nat)
    requires HasTail(nodes, t) && i < |nodes| && HeadNode(t, i)
    ensures |nodes[i].outputs| == 1
  {
  }

  /** The environment binds no name that the cut renames or introduces. */
  lemma RenamesUnbound(nodes: seq<Node>, t: Tail, env: Env)
    requires HasTail(nodes, t) && HeadIsPrivate(nodes, t, env)
    ensures Related(env, env, CutGone(nodes, t), CutRenames(nodes, t))
  {
    var renames := CutRenames(nodes, t);
    forall x | x in renames
      ensures x !in env && renames[x] !in env
    {
      CutNames(nodes, t, x);
      assert New(renames, renames[x]);
      CutNames(nodes, t, renames[x]);
    }
  }

  lemma BranchIsRenamed(nodes: seq<Node>, t: Tail, j: nat)
    requires HasTail(nodes, t) && j < |t.branches|
    ensures
      var gone, renames := CutGone(nodes, t), CutRenames(nodes, t);
      var b := FirstOut(nodes, t.branches[j]);
      b in renames && b !in gone && renames[b] == OutName(j)
  {
    var n, b := |t.branches|, t.branches[j];
    RenamedNodes(nodes, t, n, b);
    assert t.branches[..n] == t.branches && b in t.branches;
    RenamesTo(nodes, t, n, FirstOut(nodes, b));
    assert !HeadNode(t, b);
    KeptNotGone(nodes, t, n, b, 0);
  }

  /** Each new output of the pruned graph carries what its branch computed in the whole graph. */
  lemma BranchesSurvive(nodes: seq<Node>, t: Tail, env: Env, others: OtherOps, j: nat)
    requires HasTail(nodes, t) && HeadIsPrivate(nodes, t, env) && j < |t.branches|
    ensures Lookup(Eval(PrunedGraph(nodes, t), env, others), OutName(j))
         == Lookup(Eval(nodes, env, others), FirstOut(nodes, t.branches[j]))
  {
    var n := |t.branches|;
    HeadIsClear(nodes, t, env);
    PrunedEval(nodes, env, others, GoneAt(nodes, t, n) + {FirstOut(nodes, t.concat)}, RenamesAt(nodes, t, n));
    BranchIsRenamed(nodes, t, j);
  }

  // The value of the whole graph's output

  /** Every node reads only what earlier nodes write. */
  ghost predicate InOrder(nodes: seq<Node>) {
    forall i, j, k, l :: 0 <= i <= j < |nodes| && 0 <= k < |nodes[i].inputs| && 0 <= l < |nodes[j].outputs| ==>
      nodes[j].outputs[l] != nodes[i].inputs[k]
  }

  /** Nodes after the n-th do not change a name they do not write. */
  lemma {:induction false} EvalUnchanged(nodes: seq<Node>, env: Env, others: OtherOps, n: nat, x: string)
    requires n <= |nodes|
    requires forall j, l :: n <= j < |nodes| && 0 <= l < |nodes[j].outputs| ==> nodes[j].outputs[l] != x
    ensures Lookup(Eval(nodes, env, others), x) == Lookup(Eval(nodes[..n], env, others), x)
  {
    if n < |nodes| {
      var before, last := nodes[..|nodes| - 1], nodes[|nodes| - 1];
      assert forall i :: 0 <= i < |before| ==> before[i] == nodes[i];
      EvalUnchanged(before, env, others, n, x);
      assert before[..n] == nodes[..n];
      BindKeeps(Eval(before, env, others), last.outputs,
                EvalNode(last.op, last.attributes, Args(Eval(before, env, others), last.inputs), others), x);
    } else {
      assert nodes[..n] == nodes;
    }
  }

  lemma ArgsUnchanged(nodes: seq<Node>, env: Env, others: OtherOps, i: nat)
    requires UniqueOutputs(nodes) && InOrder(nodes) && i < |nodes|
    ensures Args(Eval(nodes, env, others), nodes[i].inputs) == Args(Eval(nodes[..i], env, others), nodes[i].inputs)
  {
    forall k | 0 <= k < |nodes[i].inputs|
      ensures Lookup(Eval(nodes, env, others), nodes[i].inputs[k])
        == Lookup(Eval(nodes[..i], env, others), nodes[i].inputs[k])
    {
      EvalUnchanged(nodes, env, others, i, nodes[i].inputs[k]);
    }
  }

  /** In the final environment, a node's output is its operator applied to its inputs. */
  lemma NodeEquation(nodes: seq<Node>, env: Env, others: OtherOps, i: nat)
    requires UniqueOutputs(nodes) && InOrder(nodes) && i < |nodes| && |nodes[i].outputs| == 1
    ensures
      var final := Eval(nodes, env, others);
      var values := EvalNode(nodes[i].op, nodes[i].attributes, Args(final, nodes[i].inputs), others);
      |values| > 0 ==> Lookup(final, nodes[i].outputs[0]) == values[0]
  {
    var node := nodes[i];
    ArgsUnchanged(nodes, env, others, i);
    EvalUnchanged(nodes, env, others, i + 1, node.outputs[0]);
    assert nodes[..i + 1][..i] == nodes[..i];
    StepBinds(Eval(nodes[..i], env, others), node, others);
    hide InOrder, UniqueOutputs, EvalStep, EvalNode;
  }

  lemma StepBinds(env: Env, node: Node, others: OtherOps)
    requires |node.outputs| == 1
    ensures
      var values := EvalNode(node.op, node.attributes, Args(env, node.inputs), others);
      |values| > 0 ==> Lookup(EvalStep(env, node, others), node.outputs[0]) == values[0]
  {
    hide EvalNode;
    assert node.outputs[..0] == [];
  }

  /** What a branch computes: one image. */
  ghost function BranchTensor(maps: seq<Chw>, channels: nat, extents: seq<Extent>, j: nat): (b: Tensor)
    requires j < |maps| == |extents|
    ensures b.Rank4?
  {
    Rank4(1, channels, extents[j].h, extents[j].w, [maps[j]])
  }

  /** The head's operators, and the branches' tensors: one image each, `channels` channels. */
  ghost predicate HeadOperators(nodes: seq<Node>, t: Tail, final: Env, maps: seq<Chw>, channels: nat,
                                extents: seq<Extent>)
    requires HasTail(nodes, t)
  {
    && Branches(maps, channels, extents) && |maps| == |t.branches| > 0 && channels > 0
    && nodes[t.transpose].op == "Transpose" && nodes[t.transpose].attributes == Perm([0, 2, 1])
    && nodes[t.concat].op == "Concat" && nodes[t.concat].attributes == Axis(2)
    && forall j :: 0 <= j < |maps| ==>
         && nodes[t.reshapes[j]].op == "Reshape"
         && Lookup(final, FirstOut(nodes, t.branches[j])) == Some(BranchTensor(maps, channels, extents, j))
         && var shape := Lookup(final, nodes[t.reshapes[j]].inputs[1]);
         shape.Some? && shape.value.Ints? && MergesSpatial(shape.value.ints, BranchTensor(maps, channels, extents, j))
  }

  lemma ReshapeValue(nodes: seq<Node>, t: Tail, env: Env, others: OtherOps, maps: seq<Chw>, channels: nat,
                     extents: seq<Extent>, j: nat)
    requires HasTail(nodes, t) && InOrder(nodes) && j < |maps|
    requires HeadOperators(nodes, t, Eval(nodes, env, others), maps, channels, extents)
    ensures Lookup(Eval(nodes, env, others), FirstOut(nodes, t.reshapes[j])) == Some(Rank3(Reshaped(maps)[j]))
  {
    var final, node := Eval(nodes, env, others), nodes[t.reshapes[j]];
    NodeEquation(nodes, env, others, t.reshapes[j]);
    var args := Args(final, node.inputs);
    var branch := BranchTensor(maps, channels, extents, j);
    assert args[0] == Some(branch) && args[1] == Lookup(final, node.inputs[1]);
    hide MergesSpatial;
    assert IsSpatialReshape(node.op, args);
    assert MergeSpatial(branch).rows == Reshaped(maps)[j];
  }

  lemma {:induction false} AllReshaped(maps: seq<Chw>, args: seq<Option<Tensor>>, n: nat)
    requires n <= |maps| && |args| == n && forall j :: 0 <= j < n ==> args[j] == Some(Rank3(Reshaped(maps)[j]))
    ensures AllRank3(args) == Some(Reshaped(maps)[..n])
  {
    if n > 0 {
      AllReshaped(maps, args[..n - 1], n - 1);
      assert Reshaped(maps)[..n] == Reshaped(maps)[..n - 1] + [Reshaped(maps)[n - 1]];
    }
  }

  lemma ReshapedLeading(maps: seq<Chw>, channels: nat, extents: seq<Extent>)
    requires Branches(maps, channels, extents)
    ensures SameLeading(Reshaped(maps), 1, channels)
  {
  }

  lemma ConcatOfReshaped(maps: seq<Chw>, channels: nat, extents: seq<Extent>, args: seq<Option<Tensor>>,
                         others: OtherOps)
    requires Branches(maps, channels, extents) && channels > 0 && SameLeading(Reshaped(maps), 1, channels)
    requires args != [] && AllRank3(args) == Some(Reshaped(maps)) && maps != []
    ensures EvalNode("Concat", Axis(2), args, others) == [Some(ConcatLast(Reshaped(maps), 1, channels))]
  {
    assert |Reshaped(maps)[0]| == 1 && |Reshaped(maps)[0][0]| == channels;
  }

  lemma ConcatArgs(nodes: seq<Node>, t: Tail, env: Env, others: OtherOps, maps: seq<Chw>, channels: nat,
                   extents: seq<Extent>)
    requires HasTail(nodes, t) && InOrder(nodes)
    requires HeadOperators(nodes, t, Eval(nodes, env, others), maps, channels, extents)
    ensures AllRank3(Args(Eval(nodes, env, others), nodes[t.concat].inputs)) == Some(Reshaped(maps))
  {
    var args := Args(Eval(nodes, env, others), nodes[t.concat].inputs);
    forall j | 0 <= j < |maps|
      ensures args[j] == Some(Rank3(Reshaped(maps)[j]))
    {
      ReshapeValue(nodes, t, env, others, maps, channels, extents, j);
    }
    AllReshaped(maps, args, |maps|);
    assert Reshaped(maps)[..|maps|] == Reshaped(maps);
  }

  lemma ConcatValue(nodes: seq<Node>, t: Tail, env: Env, others: OtherOps, maps: seq<Chw>, channels: nat,
                    extents: seq<Extent>)
    requires HasTail(nodes, t) && InOrder(nodes)
    requires HeadOperators(nodes, t, Eval(nodes, env, others), maps, channels, extents)
    ensures SameLeading(Reshaped(maps), 1, channels)
    ensures Lookup(Eval(nodes, env, others), FirstOut(nodes, t.concat)) == Some(ConcatLast(Reshaped(maps), 1, channels))
  {
    ReshapedLeading(maps, channels, extents);
    ConcatArgs(nodes, t, env, others, maps, channels, extents);
    ConcatOfReshaped(maps, channels, extents, Args(Eval(nodes, env, others), nodes[t.concat].inputs), others);
    NodeEquation(nodes, env, others, t.concat);
  }

  lemma OutputValue(nodes: seq<Node>, t: Tail, env: Env, others: OtherOps, maps: seq<Chw>, channels: nat,
                    extents: seq<Extent>)
    requires HasTail(nodes, t) && InOrder(nodes)
    requires HeadOperators(nodes, t, Eval(nodes, env, others), maps, channels, extents)
    ensures Lookup(Eval(nodes, env, others), OUTPUT) == Some(Rank3([Concatenated(HwcLevels(maps, channels, extents))]))
  {
    ConcatValue(nodes, t, env, others, maps, channels, extents);
    HeadIsReassembled(maps, channels, extents);
    TransposeValue(nodes, t, env, others, ConcatLast(Reshaped(maps), 1, channels));
  }

  lemma TransposeValue(nodes: seq<Node>, t: Tail, env: Env, others: OtherOps, joined: Tensor)
    requires HasTail(nodes, t) && InOrder(nodes) && joined.Rank3?
    requires nodes[t.transpose].op == "Transpose" && nodes[t.transpose].attributes == Perm([0, 2, 1])
    requires Lookup(Eval(nodes, env, others), FirstOut(nodes, t.concat)) == Some(joined)
    ensures Lookup(Eval(nodes, env, others), OUTPUT) == TransposeLast(joined)
  {
    NodeEquation(nodes, env, others, t.transpose);
    assert Args(Eval(nodes, env, others), nodes[t.transpose].inputs) == [Some(joined)];
    TransposeNode(joined, others);
  }

  lemma TransposeNode(joined: Tensor, others: OtherOps)
    requires joined.Rank3?
    ensures EvalNode("Transpose", Perm([0, 2, 1]), [Some(joined)], others) == [TransposeLast(joined)]
  {
  }

  /** The declared outputs of a graph, in order, as the runtime returns them and the host transposes them. */
  function HostArrays(final: Env, outs: seq<string>): Option<seq<Array>> {
    if outs == [] then Some([]) else
    var before, last := HostArrays(final, outs[..|outs| - 1]), Lookup(final, outs[|outs| - 1]);
    if before.None? || last.None? then None else Some(before.value + [ToNhwc(last.value)])
  }

  /** What the host makes of a graph's declared outputs. */
  function HostPrediction(final: Env, outs: seq<string>): Option<seq<Row>> {
    var arrays := HostArrays(final, outs);
    if arrays.None? then None else Prediction(arrays.value)
  }

  lemma HostArraysOneMore(final: Env, outs: seq<string>, name: string, arrays: seq<Array>, value: Tensor)
    requires HostArrays(final, outs) == Some(arrays) && Lookup(final, name) == Some(value)
    ensures HostArrays(final, outs + [name]) == Some(arrays + [ToNhwc(value)])
  {
    hide ToNhwc, Lookup;
    assert (outs + [name])[..|outs|] == outs;
  }

  lemma HwcArrayAt(maps: seq<Chw>, channels: nat, extents: seq<Extent>, j: nat)
    requires Branches(maps, channels, extents) && j < |maps|
    ensures ToNhwc(BranchTensor(maps, channels, extents, j)) == HwcArrays(maps, channels, extents)[j]
  {
    OneImageToNhwc(maps[j], channels, extents[j]);
    hide ToNhwc, ToHwc;
  }

  lemma {:induction false} HostArraysAre(final: Env, maps: seq<Chw>, channels: nat, extents: seq<Extent>, n: nat)
    requires Branches(maps, channels, extents) && n <= |maps|
    requires forall j :: 0 <= j < |maps| ==> Lookup(final, OutName(j)) == Some(BranchTensor(maps, channels, extents, j))
    ensures HostArrays(final, OutNames(n)) == Some(HwcArrays(maps, channels, extents)[..n])
  {
    hide ToNhwc, ToHwc, OutName, Lookup, BranchTensor;
    if n > 0 {
      HostArraysAre(final, maps, channels, extents, n - 1);
      HwcArrayAt(maps, channels, extents, n - 1);
      var arrays := HwcArrays(maps, channels, extents);
      hide HostArrays, HwcArrays, Branches;
      HostArraysOneMore(final, OutNames(n - 1), OutName(n - 1), arrays[..n - 1],
                        BranchTensor(maps, channels, extents, n - 1));
      TakeOneMore(arrays, n - 1);
    }
  }

  lemma HostPredictionIs(final: Env, maps: seq<Chw>, channels: nat, extents: seq<Extent>)
    requires Branches(maps, channels, extents) && maps != [] && channels > 0
    requires forall j :: 0 <= j < |maps| ==> Lookup(final, OutName(j)) == Some(BranchTensor(maps, channels, extents, j))
    ensures HostPrediction(final, OutNames(|maps|)) == Some(Concatenated(HwcLevels(maps, channels, extents)))
  {
    hide BranchTensor, OutName, Lookup;
    HostArraysAre(final, maps, channels, extents, |maps|);
    HostAccepts(maps, channels, extents);
    var arrays := HwcArrays(maps, channels, extents);
    assert arrays[..|maps|] == arrays;
  }

  /**
   * Surgery and host together are the identity: the outputs that the pruned graph declares are the branch tensors,
   * and what the host makes of them is the output of the graph before the cut.
   */
  lemma HostRebuildsOutput(nodes: seq<Node>, t: Tail, env: Env, others: OtherOps, maps: seq<Chw>, channels: nat,
                           extents: seq<Extent>)
    requires HasTail(nodes, t) && HeadIsPrivate(nodes, t, env) && InOrder(nodes)
    requires HeadOperators(nodes, t, Eval(nodes, env, others), maps, channels, extents)
    ensures
      var final, outs := Eval(PrunedGraph(nodes, t), env, others), DeclaredOutputs([OUTPUT], |t.branches|);
      && |outs| == |maps|
      && (forall j :: 0 <= j < |maps| ==> Lookup(final, outs[j]) == Some(BranchTensor(maps, channels, extents, j)))
      && HostPrediction(final, outs).Some?
      && Lookup(Eval(nodes, env, others), OUTPUT) == Some(Rank3([HostPrediction(final, outs).value]))
  {
    var final := Eval(PrunedGraph(nodes, t), env, others);
    OutputValue(nodes, t, env, others, maps, channels, extents);
    forall j | 0 <= j < |maps|
      ensures Lookup(final, OutName(j)) == Some(BranchTensor(maps, channels, extents, j))
      ensures OutNames(|maps|)[j] == OutName(j)
    {
      BranchesSurvive(nodes, t, env, others, j);
      OutNamesAt(|maps|, j);
    }
    DeclaredOfOnlyOutput(|maps|);
    hide HasTail, HeadIsPrivate, InOrder, Eval, PrunedGraph, BranchTensor, OutName, OutNames, DeclaredOutputs;
    HostPredictionIs(final, maps, channels, extents);
  }
}
