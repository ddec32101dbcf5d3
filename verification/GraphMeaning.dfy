/** Rewriting Slices to Convs keeps the value of every tensor of the graph. */
module GraphMeaning {
  import opened Wrappers
  import opened Onnx
  import opened SliceToConv
  import opened GraphRewrite

  function WithInitializers(env: Env, inits: seq<Initializer>): Env {
    if inits == [] then env
    else WithInitializers(env, inits[..|inits| - 1])[inits[|inits| - 1].name := inits[|inits| - 1].value]
  }

  /** The names of the weights that the rewriting adds. */
  ghost function NewNames(nodes: seq<Node>, inits: seq<Initializer>): set<string> {
    set i | 0 <= i < |nodes| && Replaceable(nodes[i], inits) :: WeightName(nodes[i])
  }

  ghost predicate AgreeOutside(names: set<string>, a: Env, b: Env) {
    forall x :: x !in names ==> Lookup(a, x) == Lookup(b, x)
  }

  ghost predicate Unused(node: Node, names: set<string>) {
    && (forall i :: 0 <= i < |node.inputs| ==> node.inputs[i] !in names)
    && (forall i :: 0 <= i < |node.outputs| ==> node.outputs[i] !in names)
  }

  /** The new names are new: no node mentions them, and no two replaced nodes share one. */
  ghost predicate FreshWeights(nodes: seq<Node>, inits: seq<Initializer>) {
    && (forall i :: 0 <= i < |nodes| ==> Unused(nodes[i], NewNames(nodes, inits)))
    && (forall i, j :: 0 <= i < j < |nodes| && Replaceable(nodes[i], inits) && Replaceable(nodes[j], inits) ==>
          WeightName(nodes[i]) != WeightName(nodes[j]))
  }

  /** The environment binds the initializers, and no node writes to one. */
  ghost predicate InitializersHold(nodes: seq<Node>, inits: seq<Initializer>, env: Env) {
    && (forall x :: Initial(inits, x).Some? ==> Lookup(env, x) == Initial(inits, x))
    && (forall i, k :: 0 <= i < |nodes| && 0 <= k < |nodes[i].outputs| ==> Initial(inits, nodes[i].outputs[k]).None?)
  }

  /** The slice meets an image on which its start, end and axis are replaceable ones. */
  ghost predicate Eligible(node: Node, inits: seq<Initializer>, env: Env) {
    && |node.inputs| == 5 && |node.outputs| == 1
    && StartOf(node, inits).Some? && AxisOf(node, inits).Some?
    && SingleInt(Lookup(env, node.inputs[2])).Some?
    && var t := Lookup(env, node.inputs[0]);
    && t.Some? && WellShaped(t.value)
    && Replaces(StartOf(node, inits).value, SingleInt(Lookup(env, node.inputs[2])).value, AxisOf(node, inits).value,
                t.value.c, t.value.h, t.value.w)
  }

  ghost predicate AllEligible(nodes: seq<Node>, inits: seq<Initializer>, env: Env, others: OtherOps) {
    forall i :: 0 <= i < |nodes| && Replaceable(nodes[i], inits) ==>
      Eligible(nodes[i], inits, Eval(nodes[..i], env, others))
  }

  lemma {:induction false} BindAgrees(a: Env, b: Env, names: seq<string>, values: seq<Option<Tensor>>,
                                      outside: set<string>)
    requires AgreeOutside(outside, a, b)
    ensures AgreeOutside(outside, Bind(a, names, values), Bind(b, names, values))
  {
    if names != [] {
      BindAgrees(a, b, names[..|names| - 1], values, outside);
    }
  }

  lemma {:induction false} BindKeeps(env: Env, names: seq<string>, values: seq<Option<Tensor>>, x: string)
    requires forall i :: 0 <= i < |names| ==> names[i] != x
    ensures Lookup(Bind(env, names, values), x) == Lookup(env, x)
  {
    if names != [] {
      BindKeeps(env, names[..|names| - 1], values, x);
    }
  }

  lemma {:induction false} EvalKeeps(nodes: seq<Node>, env: Env, others: OtherOps, x: string)
    requires forall i, k :: 0 <= i < |nodes| && 0 <= k < |nodes[i].outputs| ==> nodes[i].outputs[k] != x
    ensures Lookup(Eval(nodes, env, others), x) == Lookup(env, x)
  {
    if nodes != [] {
      var before, last := nodes[..|nodes| - 1], nodes[|nodes| - 1];
      assert forall i :: 0 <= i < |before| ==> before[i] == nodes[i];
      EvalKeeps(before, env, others, x);
      BindKeeps(Eval(before, env, others), last.outputs,
                EvalNode(last.op, last.attributes, Args(Eval(before, env, others), last.inputs), others), x);
    }
  }

  lemma ArgsAgree(a: Env, b: Env, names: seq<string>, outside: set<string>)
    requires AgreeOutside(outside, a, b) && forall i :: 0 <= i < |names| ==> names[i] !in outside
    ensures Args(a, names) == Args(b, names)
  {
  }

  lemma SameNodeAgrees(a: Env, b: Env, node: Node, others: OtherOps, outside: set<string>)
    requires AgreeOutside(outside, a, b) && Unused(node, outside)
    ensures AgreeOutside(outside, EvalStep(a, node, others), EvalStep(b, node, others))
  {
    ArgsAgree(a, b, node.inputs, outside);
    BindAgrees(a, b, node.outputs, EvalNode(node.op, node.attributes, Args(a, node.inputs), others), outside);
  }

  /** A Slice and its Conv bind the same tensor. */
  lemma ReplacedValue(a: Env, b: Env, node: Node, inits: seq<Initializer>, others: OtherOps)
    requires Replaceable(node, inits) && Eligible(node, inits, a)
    requires forall i :: 1 <= i < 5 && i != 2 ==> Lookup(a, node.inputs[i]) == Initial(inits, node.inputs[i])
    requires Lookup(b, node.inputs[0]) == Lookup(a, node.inputs[0])
    requires Lookup(b, WeightName(node)) == Some(WeightsFor(node, inits).value)
    ensures
      var conv := ConvFor(node, inits);
      EvalNode(node.op, node.attributes, Args(a, node.inputs), others)
        == EvalNode(conv.op, conv.attributes, Args(b, conv.inputs), others)
  {
    var t := Lookup(a, node.inputs[0]).value;
    var start, axis := StartOf(node, inits).value, AxisOf(node, inits).value;
    var end := SingleInt(Lookup(a, node.inputs[2])).value;
    ReplacedAgrees(t, t.n, t.c, t.h, t.w, start, end, axis);
    var sliceArgs := Args(a, node.inputs);
    assert sliceArgs[4] == Some(Ints([2])) && IsSliceByTwo(node.op, sliceArgs);
    assert EvalNode(node.op, node.attributes, sliceArgs, others) == [SliceByTwo(t, start, end, axis)];
    var conv := ConvFor(node, inits);
    var convArgs := Args(b, conv.inputs);
    assert convArgs == [Some(t), Some(Weights(Some(start), Some(axis)))];
    assert IsConv(conv.op, conv.attributes, convArgs) && !IsSliceByTwo(conv.op, convArgs);
    assert EvalNode(conv.op, conv.attributes, convArgs, others) == [InsertedConv(t, Some(start), Some(axis))];
  }

  lemma ReplacedNodeAgrees(a: Env, b: Env, node: Node, inits: seq<Initializer>, others: OtherOps, outside: set<string>)
    requires AgreeOutside(outside, a, b) && Unused(node, outside)
    requires Replaceable(node, inits) && Eligible(node, inits, a)
    requires forall i :: 1 <= i < 5 && i != 2 ==> Lookup(a, node.inputs[i]) == Initial(inits, node.inputs[i])
    requires Lookup(b, WeightName(node)) == Some(WeightsFor(node, inits).value)
    ensures AgreeOutside(outside, EvalStep(a, node, others), EvalStep(b, ConvFor(node, inits), others))
  {
    ReplacedValue(a, b, node, inits, others);
    assert node.outputs == [node.outputs[0]];
    BindAgrees(a, b, node.outputs, EvalNode(node.op, node.attributes, Args(a, node.inputs), others), outside);
  }

  lemma {:induction false} NewWeightsBound(nodes: seq<Node>, inits: seq<Initializer>, env: Env, i: nat)
    requires i < |nodes| && Replaceable(nodes[i], inits)
    requires forall j :: i < j < |nodes| && Replaceable(nodes[j], inits) ==>
      WeightName(nodes[j]) != WeightName(nodes[i])
    ensures Lookup(WithInitializers(env, NewWeights(nodes, inits)), WeightName(nodes[i]))
      == Some(WeightsFor(nodes[i], inits).value)
  {
    var before, last := nodes[..|nodes| - 1], nodes[|nodes| - 1];
    var news := NewWeights(nodes, inits);
    if Replaceable(last, inits) {
      assert news[..|news| - 1] == NewWeights(before, inits);
    } else {
      assert news == NewWeights(before, inits);
    }
    if i < |nodes| - 1 {
      NewWeightsBound(before, inits, env, i);
    }
  }

  lemma {:induction false} NewWeightsOnly(nodes: seq<Node>, inits: seq<Initializer>, env: Env, x: string)
    requires x !in NewNames(nodes, inits)
    ensures Lookup(WithInitializers(env, NewWeights(nodes, inits)), x) == Lookup(env, x)
  {
    if nodes != [] {
      var before, last := nodes[..|nodes| - 1], nodes[|nodes| - 1];
      var news := NewWeights(nodes, inits);
      assert forall i :: 0 <= i < |before| ==> before[i] == nodes[i];
      NewWeightsOnly(before, inits, env, x);
      if Replaceable(last, inits) {
        assert news[..|news| - 1] == NewWeights(before, inits);
        assert WeightName(last) in NewNames(nodes, inits);
      } else {
        assert news == NewWeights(before, inits);
      }
    }
  }

  lemma RewrittenOutputs(nodes: seq<Node>, inits: seq<Initializer>, n: nat, x: string)
    requires HaveOutputs(nodes, inits) && FreshWeights(nodes, inits) && n <= |nodes| && x in NewNames(nodes, inits)
    ensures forall i, k :: 0 <= i < n && 0 <= k < |Rewritten(nodes, inits)[..n][i].outputs| ==>
      Rewritten(nodes, inits)[..n][i].outputs[k] != x
  {
  }

  /** What holds of both evaluations after n nodes. */
  ghost predicate SameSoFar(nodes: seq<Node>, inits: seq<Initializer>, env: Env, others: OtherOps, n: nat)
    requires HaveOutputs(nodes, inits) && n <= |nodes|
  {
    AgreeOutside(NewNames(nodes, inits), Eval(nodes[..n], env, others),
                 Eval(Rewritten(nodes, inits)[..n], WithInitializers(env, NewWeights(nodes, inits)), others))
  }

  lemma InitializersStillHold(nodes: seq<Node>, inits: seq<Initializer>, env: Env, others: OtherOps, n: nat, x: string)
    requires InitializersHold(nodes, inits, env) && n <= |nodes| && Initial(inits, x).Some?
    ensures Lookup(Eval(nodes[..n], env, others), x) == Initial(inits, x)
  {
    forall i, k | 0 <= i < n && 0 <= k < |nodes[..n][i].outputs|
      ensures nodes[..n][i].outputs[k] != x
    {
      assert nodes[..n][i] == nodes[i];
    }
    EvalKeeps(nodes[..n], env, others, x);
  }

  lemma SameAfterOneMore(nodes: seq<Node>, inits: seq<Initializer>, env: Env, others: OtherOps, n: nat)
    requires HaveOutputs(nodes, inits) && FreshWeights(nodes, inits) && InitializersHold(nodes, inits, env)
    requires AllEligible(nodes, inits, env, others) && n < |nodes| && SameSoFar(nodes, inits, env, others, n)
    ensures SameSoFar(nodes, inits, env, others, n + 1)
  {
    var names, node, done := NewNames(nodes, inits), nodes[n], Rewritten(nodes, inits);
    var env' := WithInitializers(env, NewWeights(nodes, inits));
    var a, b := Eval(nodes[..n], env, others), Eval(done[..n], env', others);
    assert nodes[..n + 1][..n] == nodes[..n] && done[..n + 1][..n] == done[..n];
    assert Unused(node, names);
    if Replaceable(node, inits) {
      WeightsBoundThere(nodes, inits, env, others, n);
      InputsHoldThere(nodes, inits, env, others, n);
      ReplacedNodeAgrees(a, b, node, inits, others, names);
    } else {
      SameNodeAgrees(a, b, node, others, names);
    }
  }

  /** When the inserted Conv is evaluated, its weights still have their initial value. */
  lemma WeightsBoundThere(nodes: seq<Node>, inits: seq<Initializer>, env: Env, others: OtherOps, n: nat)
    requires HaveOutputs(nodes, inits) && FreshWeights(nodes, inits) && n < |nodes| && Replaceable(nodes[n], inits)
    ensures Lookup(Eval(Rewritten(nodes, inits)[..n], WithInitializers(env, NewWeights(nodes, inits)), others),
                   WeightName(nodes[n]))
         == Some(WeightsFor(nodes[n], inits).value)
  {
    assert WeightName(nodes[n]) in NewNames(nodes, inits);
    NewWeightsBound(nodes, inits, env, n);
    RewrittenOutputs(nodes, inits, n, WeightName(nodes[n]));
    EvalKeeps(Rewritten(nodes, inits)[..n], WithInitializers(env, NewWeights(nodes, inits)), others,
              WeightName(nodes[n]));
  }

  /** When a Slice is evaluated, its start, axis and step still have their initial values. */
  lemma InputsHoldThere(nodes: seq<Node>, inits: seq<Initializer>, env: Env, others: OtherOps, n: nat)
    requires InitializersHold(nodes, inits, env) && n < |nodes| && Replaceable(nodes[n], inits)
    requires StartOf(nodes[n], inits).Some? && AxisOf(nodes[n], inits).Some?
    ensures forall i :: 1 <= i < 5 && i != 2 ==>
      Lookup(Eval(nodes[..n], env, others), nodes[n].inputs[i]) == Initial(inits, nodes[n].inputs[i])
  {
    forall i | 1 <= i < 5 && i != 2
      ensures Lookup(Eval(nodes[..n], env, others), nodes[n].inputs[i]) == Initial(inits, nodes[n].inputs[i])
    {
      InitializersStillHold(nodes, inits, env, others, n, nodes[n].inputs[i]);
    }
  }

  lemma {:induction false} SameThroughout(nodes: seq<Node>, inits: seq<Initializer>, env: Env, others: OtherOps, n: nat)
    requires HaveOutputs(nodes, inits) && FreshWeights(nodes, inits) && InitializersHold(nodes, inits, env)
    requires AllEligible(nodes, inits, env, others) && n <= |nodes|
    ensures SameSoFar(nodes, inits, env, others, n)
  {
    hide *;
    if n == 0 {
      SameAtStart(nodes, inits, env, others);
    } else {
      SameThroughout(nodes, inits, env, others, n - 1);
      SameAfterOneMore(nodes, inits, env, others, n - 1);
    }
  }

  lemma SameAtStart(nodes: seq<Node>, inits: seq<Initializer>, env: Env, others: OtherOps)
    requires HaveOutputs(nodes, inits)
    ensures SameSoFar(nodes, inits, env, others, 0)
  {
    var env' := WithInitializers(env, NewWeights(nodes, inits));
    assert Eval(nodes[..0], env, others) == env && Eval(Rewritten(nodes, inits)[..0], env', others) == env';
    forall x | x !in NewNames(nodes, inits)
      ensures Lookup(env', x) == Lookup(env, x)
    {
      NewWeightsOnly(nodes, inits, env, x);
    }
  }

  /**
   * The rewriting preserves the meaning of the whole graph: whatever the other nodes compute, every tensor
   * name but those of the added weights evaluates to what it did before.
   */
  lemma RewritePreservesMeaning(nodes: seq<Node>, inits: seq<Initializer>, env: Env, others: OtherOps, x: string)
    requires HaveOutputs(nodes, inits) && FreshWeights(nodes, inits) && InitializersHold(nodes, inits, env)
    requires AllEligible(nodes, inits, env, others)
    requires x !in NewNames(nodes, inits)
    ensures Lookup(Eval(Rewritten(nodes, inits), WithInitializers(env, NewWeights(nodes, inits)), others), x)
         == Lookup(Eval(nodes, env, others), x)
  {
    SameThroughout(nodes, inits, env, others, |nodes|);
    assert nodes[..|nodes|] == nodes && Rewritten(nodes, inits)[..|nodes|] == Rewritten(nodes, inits);
  }
}
