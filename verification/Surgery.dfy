/** The surgery script as a whole: Slices become Convs, then the head is cut off and left to the host. */
module Surgery {
  import opened Wrappers
  import opened Levels
  import opened Onnx
  import opened GraphRewrite
  import opened GraphMeaning
  import opened TailSurgery
  import opened PruneTail
  import opened HostAssembly
  import opened PruneMeaning

  ghost predicate HeadHasNoSlice(nodes: seq<Node>, t: Tail) {
    forall i :: 0 <= i < |nodes| && HeadNode(t, i) ==> nodes[i].op != "Slice"
  }

  /** What the replacement of a node leaves as it was. */
  lemma ReplacedKeeps(nodes: seq<Node>, inits: seq<Initializer>, i: nat)
    requires HaveOutputs(nodes, inits) && UniqueOutputs(nodes) && i < |nodes|
    ensures
      var r := Rewritten(nodes, inits)[i];
      && 0 < |r.outputs| <= |nodes[i].outputs|
      && (forall k :: 0 <= k < |r.outputs| ==> r.outputs[k] == nodes[i].outputs[k])
      && (nodes[i].op != "Slice" ==> r == nodes[i])
      && (forall k :: 0 <= k < |r.inputs| ==>
            || (k < |nodes[i].inputs| && r.inputs[k] == nodes[i].inputs[k])
            || (Replaceable(nodes[i], inits) && r.inputs[k] == WeightName(nodes[i])))
  {
  }

  lemma OutputsStayUnique(nodes: seq<Node>, inits: seq<Initializer>)
    requires HaveOutputs(nodes, inits) && UniqueOutputs(nodes)
    ensures UniqueOutputs(Rewritten(nodes, inits))
    ensures forall i :: 0 <= i < |nodes| ==> FirstOut(Rewritten(nodes, inits), i) == FirstOut(nodes, i)
  {
    forall i | 0 <= i < |nodes|
      ensures
        var r := Rewritten(nodes, inits)[i];
        && 0 < |r.outputs| <= |nodes[i].outputs|
        && forall k :: 0 <= k < |r.outputs| ==> r.outputs[k] == nodes[i].outputs[k]
    {
      ReplacedKeeps(nodes, inits, i);
    }
    hide Rewritten;
  }

  lemma HeadUntouched(nodes: seq<Node>, inits: seq<Initializer>, t: Tail, i: nat)
    requires HaveOutputs(nodes, inits) && HasTail(nodes, t) && HeadHasNoSlice(nodes, t) && i < |nodes| && HeadNode(t, i)
    ensures Rewritten(nodes, inits)[i] == nodes[i]
  {
  }

  /** The head stands where it stood. */
  lemma TailRewritten(nodes: seq<Node>, inits: seq<Initializer>, t: Tail)
    requires HaveOutputs(nodes, inits) && HasTail(nodes, t) && HeadHasNoSlice(nodes, t)
    ensures HasTail(Rewritten(nodes, inits), t)
  {
    OutputsStayUnique(nodes, inits);
    HeadUntouched(nodes, inits, t, t.transpose);
    HeadUntouched(nodes, inits, t, t.concat);
    var done := Rewritten(nodes, inits);
    forall i | 0 <= i < |t.reshapes|
      ensures done[t.reshapes[i]] == nodes[t.reshapes[i]]
      ensures done[t.branches[i]].outputs[0] == nodes[t.branches[i]].outputs[0]
    {
      assert t.reshapes[i] in t.reshapes;
      HeadUntouched(nodes, inits, t, t.reshapes[i]);
      assert FirstOut(done, t.branches[i]) == FirstOut(nodes, t.branches[i]);
    }
    forall i, j, k | 0 <= i < |nodes| && 0 <= k < |done[i].outputs| && 0 <= j < |t.branches|
      ensures done[i].outputs[k] != OutName(j)
    {
      ReplacedKeeps(nodes, inits, i);
    }
    hide Rewritten, UniqueOutputs;
  }

  lemma HeadNamesRewritten(nodes: seq<Node>, inits: seq<Initializer>, t: Tail, x: string)
    requires HaveOutputs(nodes, inits) && HasTail(nodes, t) && HasTail(Rewritten(nodes, inits), t)
    ensures HeadName(Rewritten(nodes, inits), t, x) <==> HeadName(nodes, t, x)
  {
    OutputsStayUnique(nodes, inits);
    var done := Rewritten(nodes, inits);
    forall j | 0 <= j < |t.reshapes|
      ensures FirstOut(done, t.reshapes[j]) == FirstOut(nodes, t.reshapes[j])
      ensures FirstOut(done, t.branches[j]) == FirstOut(nodes, t.branches[j])
    {
    }
    assert FirstOut(done, t.concat) == FirstOut(nodes, t.concat);
  }

  /** The name of a new weight is not one that the cut introduces: one ends in a letter, the other in a digit. */
  lemma WeightNamesAreNoOutNames(node: Node, j: nat)
    ensures WeightName(node) != OutName(j) && WeightName(node) != OUTPUT
  {
    var w, o := WeightName(node), OutName(j);
    assert w[|w| - 1] == 's';
    LastIsDigit(j);
    assert o[|o| - 1] == Decimal(j)[|Decimal(j)| - 1];
  }

  lemma LastIsDigit(n: nat)
    ensures |Decimal(n)| > 0 && Decimal(n)[|Decimal(n)| - 1] != 's'
  {
    assert forall d :: 0 <= d < 10 ==> DIGITS[d] != 's';
  }

  lemma NewNamesAreNotHead(nodes: seq<Node>, inits: seq<Initializer>, t: Tail, x: string)
    requires HasTail(nodes, t) && FreshWeights(nodes, inits) && x in NewNames(nodes, inits)
    ensures !HeadName(nodes, t, x)
  {
    var i :| 0 <= i < |nodes| && Replaceable(nodes[i], inits) && x == WeightName(nodes[i]);
    forall j: nat
      ensures x != OutName(j) && x != OUTPUT
    {
      WeightNamesAreNoOutNames(nodes[i], j);
    }
    forall j | 0 <= j < |nodes|
      ensures x != FirstOut(nodes, j)
    {
      assert Unused(nodes[j], NewNames(nodes, inits));
    }
  }

  lemma PrivateRewritten(nodes: seq<Node>, inits: seq<Initializer>, t: Tail, env: Env)
    requires HaveOutputs(nodes, inits) && FreshWeights(nodes, inits)
    requires HasTail(nodes, t) && HasTail(Rewritten(nodes, inits), t) && HeadIsPrivate(nodes, t, env)
    ensures HeadIsPrivate(Rewritten(nodes, inits), t, WithInitializers(env, NewWeights(nodes, inits)))
  {
    var done, env' := Rewritten(nodes, inits), WithInitializers(env, NewWeights(nodes, inits));
    forall i, k | 0 <= i < |nodes| && !HeadNode(t, i) && 0 <= k < |done[i].inputs|
      ensures !HeadName(done, t, done[i].inputs[k])
    {
      ReplacedKeeps(nodes, inits, i);
      HeadNamesRewritten(nodes, inits, t, done[i].inputs[k]);
      if done[i].inputs[k] in NewNames(nodes, inits) {
        NewNamesAreNotHead(nodes, inits, t, done[i].inputs[k]);
      }
    }
    forall x | x in env'
      ensures !HeadName(done, t, x)
    {
      HeadNamesRewritten(nodes, inits, t, x);
      if x in NewNames(nodes, inits) {
        NewNamesAreNotHead(nodes, inits, t, x);
      } else {
        NewWeightsOnly(nodes, inits, env, x);
      }
    }
  }

  lemma InOrderRewritten(nodes: seq<Node>, inits: seq<Initializer>)
    requires HaveOutputs(nodes, inits) && FreshWeights(nodes, inits) && UniqueOutputs(nodes) && InOrder(nodes)
    ensures InOrder(Rewritten(nodes, inits))
  {
    var done := Rewritten(nodes, inits);
    forall i, j, k, l | 0 <= i <= j < |done| && 0 <= k < |done[i].inputs| && 0 <= l < |done[j].outputs|
      ensures done[j].outputs[l] != done[i].inputs[k]
    {
      ReplacedKeeps(nodes, inits, i);
      ReplacedKeeps(nodes, inits, j);
      assert Unused(nodes[j], NewNames(nodes, inits));
    }
  }

  lemma OperatorsRewritten(nodes: seq<Node>, inits: seq<Initializer>, t: Tail, env: Env, others: OtherOps,
                           maps: seq<Chw>, channels: nat, extents: seq<Extent>)
    requires HaveOutputs(nodes, inits) && FreshWeights(nodes, inits) && InitializersHold(nodes, inits, env)
    requires AllEligible(nodes, inits, env, others)
    requires HasTail(nodes, t) && HeadHasNoSlice(nodes, t) && HasTail(Rewritten(nodes, inits), t)
    requires HeadOperators(nodes, t, Eval(nodes, env, others), maps, channels, extents)
    ensures HeadOperators(Rewritten(nodes, inits), t,
                          Eval(Rewritten(nodes, inits), WithInitializers(env, NewWeights(nodes, inits)), others),
                          maps, channels, extents)
  {
    OutputsStayUnique(nodes, inits);
    HeadUntouched(nodes, inits, t, t.transpose);
    HeadUntouched(nodes, inits, t, t.concat);
    forall j | 0 <= j < |t.reshapes|
      ensures Rewritten(nodes, inits)[t.reshapes[j]] == nodes[t.reshapes[j]]
      ensures FirstOut(Rewritten(nodes, inits), t.branches[j]) == FirstOut(nodes, t.branches[j])
      ensures nodes[t.reshapes[j]].inputs[1] !in NewNames(nodes, inits)
      ensures FirstOut(nodes, t.branches[j]) !in NewNames(nodes, inits)
    {
      assert t.reshapes[j] in t.reshapes;
      HeadUntouched(nodes, inits, t, t.reshapes[j]);
      assert Unused(nodes[t.reshapes[j]], NewNames(nodes, inits)) &&
        Unused(nodes[t.branches[j]], NewNames(nodes, inits));
    }
    forall x | x !in NewNames(nodes, inits)
      ensures Lookup(Eval(Rewritten(nodes, inits), WithInitializers(env, NewWeights(nodes, inits)), others), x)
           == Lookup(Eval(nodes, env, others), x)
    {
      RewritePreservesMeaning(nodes, inits, env, others, x);
    }
    hide Eval, Rewritten, UniqueOutputs, NewNames, NewWeights, WithInitializers, FreshWeights, AllEligible,
      InitializersHold;
  }

  lemma OutputIsNoWeight(nodes: seq<Node>, inits: seq<Initializer>, t: Tail)
    requires HasTail(nodes, t) && FreshWeights(nodes, inits)
    ensures OUTPUT !in NewNames(nodes, inits)
  {
    assert Unused(nodes[t.transpose], NewNames(nodes, inits));
    assert nodes[t.transpose].outputs[0] == OUTPUT;
  }

  lemma OperatorsAreNoSlices(nodes: seq<Node>, t: Tail, final: Env, maps: seq<Chw>, channels: nat, extents: seq<Extent>)
    requires HasTail(nodes, t) && HeadOperators(nodes, t, final, maps, channels, extents)
    ensures HeadHasNoSlice(nodes, t)
  {
  }

  /**
   * The script preserves the network: evaluated with the added weights, the new outputs of the optimized
   * graph are the branch tensors of the original one, and what the host makes of them is the original
   * graph's output.
   */
  lemma OptimizedGraphRebuildsOutput(nodes: seq<Node>, inits: seq<Initializer>, t: Tail, env: Env, others: OtherOps,
                                     maps: seq<Chw>, channels: nat, extents: seq<Extent>)
    requires HaveOutputs(nodes, inits) && FreshWeights(nodes, inits) && InitializersHold(nodes, inits, env)
    requires AllEligible(nodes, inits, env, others)
    requires HasTail(nodes, t) && HeadIsPrivate(nodes, t, env) && InOrder(nodes)
    requires HeadOperators(nodes, t, Eval(nodes, env, others), maps, channels, extents)
    ensures HasTail(Rewritten(nodes, inits), t)
    ensures
      var final := Eval(PrunedGraph(Rewritten(nodes, inits), t), WithInitializers(env, NewWeights(nodes, inits)),
                        others);
      var outs := DeclaredOutputs([OUTPUT], |t.branches|);
      && |outs| == |maps|
      && (forall j :: 0 <= j < |maps| ==> Lookup(final, outs[j]) == Some(BranchTensor(maps, channels, extents, j)))
      && HostPrediction(final, outs).Some?
      && Lookup(Eval(nodes, env, others), OUTPUT) == Some(Rank3([HostPrediction(final, outs).value]))
  {
    OperatorsAreNoSlices(nodes, t, Eval(nodes, env, others), maps, channels, extents);
    TailRewritten(nodes, inits, t);
    PrivateRewritten(nodes, inits, t, env);
    InOrderRewritten(nodes, inits);
    OperatorsRewritten(nodes, inits, t, env, others, maps, channels, extents);
    OutputIsNoWeight(nodes, inits, t);
    HostRebuildsOutput(Rewritten(nodes, inits), t, WithInitializers(env, NewWeights(nodes, inits)), others, maps,
                       channels, extents);
    RewritePreservesMeaning(nodes, inits, env, others, OUTPUT);
  }

  function NamesOf(inits: seq<Initializer>): set<string> {
    set i | 0 <= i < |inits| :: inits[i].name
  }

  lemma {:induction false} NewWeightNames(nodes: seq<Node>, inits: seq<Initializer>)
    ensures forall i :: 0 <= i < |NewWeights(nodes, inits)| ==>
      NewWeights(nodes, inits)[i].name in NewNames(nodes, inits)
  {
    if nodes != [] {
      var before, last := nodes[..|nodes| - 1], nodes[|nodes| - 1];
      NewWeightNames(before, inits);
      assert forall i :: 0 <= i < |before| ==> before[i] == nodes[i];
      assert NewNames(before, inits) <= NewNames(nodes, inits);
      assert Replaceable(last, inits) ==> WeightName(last) in NewNames(nodes, inits);
    }
  }

  /** The edits that the script makes on the loaded model. */
  method Optimize(nodes: seq<Node>, inits: seq<Initializer>, outputs: seq<string>, ghost t: Tail)
    returns (node: seq<Node>, initializer: seq<Initializer>, outs: seq<string>)
    requires HaveOutputs(nodes, inits) && FreshWeights(nodes, inits)
    requires HasTail(nodes, t) && HeadHasNoSlice(nodes, t) && OUTPUT in outputs
    requires FirstOut(nodes, t.concat) !in NamesOf(inits)
    ensures HasTail(Rewritten(nodes, inits), t) && node == PrunedGraph(Rewritten(nodes, inits), t)
    ensures initializer == inits + NewWeights(nodes, inits)
    ensures WeightsAdded(nodes, inits, initializer)
    ensures exists replaced :: SlicesReplaced(nodes, inits, replaced) && Stage(replaced, t, |t.branches|, true, node)
    ensures outs == DeclaredOutputs(outputs, |t.branches|)
  {
    hide SlicesReplaced, WeightsAdded, Stage;
    TailRewritten(nodes, inits, t);
    OutputsStayUnique(nodes, inits);
    NewWeightNames(nodes, inits);
    assert Unused(nodes[t.concat], NewNames(nodes, inits));
    var graph := new Graph(nodes, inits);
    graph.ReplaceSliceWithConv();
    var model := new Model(graph.node, outputs, NamesOf(graph.initializer));
    model.PruneTail(t);
    node, initializer, outs := model.node, graph.initializer, model.outputs;
  }
}
