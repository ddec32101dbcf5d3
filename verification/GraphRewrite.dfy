/** The node-list edit that swaps strided Slices for Convs, and its effect on the whole graph. */
module GraphRewrite {
  import opened Wrappers
  import opened Onnx
  import opened SliceToConv

  /** The value of an initializer; of several with one name the last counts. */
  function Initial(inits: seq<Initializer>, name: string): Option<Tensor> {
    if inits == [] then None
    else if inits[|inits| - 1].name == name then Some(inits[|inits| - 1].value)
    else Initial(inits[..|inits| - 1], name)
  }

  ghost predicate LastNamed(inits: seq<Initializer>, name: string, value: Tensor, i: int) {
    && 0 <= i < |inits| && inits[i] == Initializer(name, value)
    && forall j :: i < j < |inits| ==> inits[j].name != name
  }

  /** Of several initializers with one name, the last one counts. */
  lemma {:induction false} InitialIsLast(inits: seq<Initializer>, name: string, value: Tensor)
    ensures Initial(inits, name) == Some(value) <==> exists i :: LastNamed(inits, name, value, i)
  {
    if inits != [] {
      var last := |inits| - 1;
      InitialIsLast(inits[..last], name, value);
      if inits[last].name == name {
        assert inits[last].value == value ==> LastNamed(inits, name, value, last);
      } else {
        forall i
          ensures LastNamed(inits, name, value, i) <==> LastNamed(inits[..last], name, value, i)
        {
        }
      }
    }
  }

  function SingleInt(t: Option<Tensor>): Option<int> {
    if t.Some? && t.value.Ints? && |t.value.ints| == 1 then Some(t.value.ints[0]) else None
  }

  lemma SingleIntIs(t: Option<Tensor>, v: int)
    ensures SingleInt(t) == Some(v) <==> t == Some(Ints([v]))
  {
    if SingleInt(t) == Some(v) {
      assert t.value.ints == [v];
    }
  }

  predicate Replaceable(node: Node, inits: seq<Initializer>) {
    node.op == "Slice" && |node.inputs| >= 5 && Initial(inits, node.inputs[4]) == Some(Ints([2]))
  }

  function StartOf(node: Node, inits: seq<Initializer>): Option<int>
    requires |node.inputs| >= 5
  {
    SingleInt(Initial(inits, node.inputs[1]))
  }

  function AxisOf(node: Node, inits: seq<Initializer>): Option<int>
    requires |node.inputs| >= 5
  {
    SingleInt(Initial(inits, node.inputs[3]))
  }

  function WeightName(node: Node): string { node.name + "_conv_weights" }

  function ConvFor(node: Node, inits: seq<Initializer>): Node
    requires |node.inputs| >= 5 && node.outputs != []
  {
    var shape := KernelShape(AxisOf(node, inits));
    Node("Conv", node.name + "_conv", [node.inputs[0], WeightName(node)], [node.outputs[0]],
         ConvAttributes(shape, shape))
  }

  function WeightsFor(node: Node, inits: seq<Initializer>): Initializer
    requires |node.inputs| >= 5
  {
    Initializer(WeightName(node), Weights(StartOf(node, inits), AxisOf(node, inits)))
  }

  /** A replaceable node has an output to take over. */
  ghost predicate HaveOutputs(nodes: seq<Node>, inits: seq<Initializer>) {
    forall i :: 0 <= i < |nodes| && Replaceable(nodes[i], inits) ==> nodes[i].outputs != []
  }

  function Replaced(node: Node, inits: seq<Initializer>): Node
    requires Replaceable(node, inits) ==> node.outputs != []
  {
    if Replaceable(node, inits) then ConvFor(node, inits) else node
  }

  /** Every replaceable node gives way to its Conv, in its own place. */
  function Rewritten(nodes: seq<Node>, inits: seq<Initializer>): (r: seq<Node>)
    requires HaveOutputs(nodes, inits)
    ensures |r| == |nodes|
  {
    seq(|nodes|, i requires 0 <= i < |nodes| => Replaced(nodes[i], inits))
  }

  /** The nodes that are not replaceable. */
  function Kept(nodes: seq<Node>, inits: seq<Initializer>): seq<Node> {
    if nodes == [] then []
    else (if Replaceable(nodes[0], inits) then [] else [nodes[0]]) + Kept(nodes[1..], inits)
  }

  function NewWeights(nodes: seq<Node>, inits: seq<Initializer>): seq<Initializer> {
    if nodes == [] then [] else
    var last := nodes[|nodes| - 1];
    NewWeights(nodes[..|nodes| - 1], inits) + if Replaceable(last, inits) then [WeightsFor(last, inits)] else []
  }

  // What is left, without reference to the functions above

  /** A Slice whose steps are [2]. */
  ghost predicate StepTwo(node: Node, inits: seq<Initializer>) {
    node.op == "Slice" && |node.inputs| >= 5 && Initial(inits, node.inputs[4]) == Some(Ints([2]))
  }

  /** Every such Slice has become its Conv, and every other node is as it was, each in its place. */
  ghost predicate SlicesReplaced(before: seq<Node>, inits: seq<Initializer>, after: seq<Node>) {
    && |after| == |before|
    && forall i :: 0 <= i < |before| ==>
         if StepTwo(before[i], inits) then
           && before[i].outputs != []
           && var shape := if Initial(inits, before[i].inputs[3]) == Some(Ints([3])) then (1, 2) else (2, 1);
           after[i] == Node("Conv", before[i].name + "_conv",
                            [before[i].inputs[0], before[i].name + "_conv_weights"], [before[i].outputs[0]],
                            ConvAttributes(shape, shape))
         else after[i] == before[i]
  }

  lemma RewrittenReplaces(nodes: seq<Node>, inits: seq<Initializer>)
    requires HaveOutputs(nodes, inits)
    ensures SlicesReplaced(nodes, inits, Rewritten(nodes, inits))
  {
    forall i | 0 <= i < |nodes| && Replaceable(nodes[i], inits)
      ensures AxisOf(nodes[i], inits) == Some(3) <==> Initial(inits, nodes[i].inputs[3]) == Some(Ints([3]))
    {
      SingleIntIs(Initial(inits, nodes[i].inputs[3]), 3);
    }
    hide Initial;
  }

  /** The kernel of a Slice with the given start and axis: in each channel's own filter one tap is set, or none. */
  ghost predicate KernelFor(k: Tensor, start: Option<Tensor>, axis: Option<Tensor>) {
    && k.Rank4? && k.n == 3 && k.c == 3 && (k.h, k.w) == (if axis == Some(Ints([3])) then (1, 2) else (2, 1))
    && forall m: nat, b: nat, i: nat, j: nat :: m < 3 && b < 3 && i < k.h && j < k.w ==>
         At(k, m, b, i, j) ==
           if m == b && (|| (start == Some(Ints([0])) && i == 0 && j == 0)
                         || (start == Some(Ints([1])) && axis == Some(Ints([2])) && i == 1 && j == 0)
                         || (start == Some(Ints([1])) && axis == Some(Ints([3])) && i == 0 && j == 1)) then 1.0
           else 0.0
  }

  ghost predicate WeightOf(node: Node, inits: seq<Initializer>, weight: Initializer) {
    && |node.inputs| >= 5 && weight.name == node.name + "_conv_weights"
    && KernelFor(weight.value, Initial(inits, node.inputs[1]), Initial(inits, node.inputs[3]))
  }

  /** One weight for each such Slice, in order; `places` says where these stand. */
  ghost predicate WeightsListed(nodes: seq<Node>, inits: seq<Initializer>, weights: seq<Initializer>,
                                places: seq<nat>) {
    && |weights| == |places|
    && (forall k :: 0 <= k < |places| ==>
          places[k] < |nodes| && StepTwo(nodes[places[k]], inits) && WeightOf(nodes[places[k]], inits, weights[k]))
    && (forall j, k :: 0 <= j < k < |places| ==> places[j] < places[k])
    && (forall i :: 0 <= i < |nodes| && StepTwo(nodes[i], inits) ==> i in places)
  }

  /** The initializers are kept, and followed by the new weights. */
  ghost predicate WeightsAdded(before: seq<Node>, inits: seq<Initializer>, after: seq<Initializer>) {
    inits <= after && exists places :: WeightsListed(before, inits, after[|inits|..], places)
  }

  lemma WeightsListedOneMore(nodes: seq<Node>, node: Node, inits: seq<Initializer>, weights: seq<Initializer>,
                         places: seq<nat>, weight: Initializer)
    requires WeightsListed(nodes, inits, weights, places)
    ensures !StepTwo(node, inits) ==> WeightsListed(nodes + [node], inits, weights, places)
    ensures StepTwo(node, inits) && WeightOf(node, inits, weight) ==>
      WeightsListed(nodes + [node], inits, weights + [weight], places + [|nodes|])
  {
    hide StepTwo, WeightOf;
    assert forall i :: 0 <= i < |nodes| ==> (nodes + [node])[i] == nodes[i];
  }

  lemma WeightsForIs(node: Node, inits: seq<Initializer>)
    requires |node.inputs| >= 5
    ensures WeightOf(node, inits, WeightsFor(node, inits))
  {
    WeightsAreSet(StartOf(node, inits), AxisOf(node, inits));
    SingleIntIs(Initial(inits, node.inputs[1]), 0);
    SingleIntIs(Initial(inits, node.inputs[1]), 1);
    SingleIntIs(Initial(inits, node.inputs[3]), 2);
    SingleIntIs(Initial(inits, node.inputs[3]), 3);
    hide Weights, Initial, SingleInt;
  }

  lemma {:induction false} NewWeightsPlaces(nodes: seq<Node>, inits: seq<Initializer>) returns (places: seq<nat>)
    ensures WeightsListed(nodes, inits, NewWeights(nodes, inits), places)
  {
    places := [];
    if nodes != [] {
      var before, last := nodes[..|nodes| - 1], nodes[|nodes| - 1];
      places := NewWeightsPlaces(before, inits);
      var weights := NewWeights(before, inits);
      assert before + [last] == nodes;
      if Replaceable(last, inits) {
        WeightsForIs(last, inits);
        WeightsListedOneMore(before, last, inits, weights, places, WeightsFor(last, inits));
        places := places + [|before|];
      } else {
        WeightsListedOneMore(before, last, inits, weights, places, Initializer("", Ints([])));
        assert weights + [] == weights;
      }
      hide WeightsListed, WeightOf, WeightsFor, Initial;
    }
  }

  lemma NewWeightsAdded(nodes: seq<Node>, inits: seq<Initializer>)
    ensures WeightsAdded(nodes, inits, inits + NewWeights(nodes, inits))
  {
    var places := NewWeightsPlaces(nodes, inits);
    hide WeightsListed, NewWeights;
    assert (inits + NewWeights(nodes, inits))[|inits|..] == NewWeights(nodes, inits);
  }

  // The list edit

  /** `list.remove`: drops the first element equal to the given one. */
  function RemoveFirst(nodes: seq<Node>, node: Node): seq<Node> {
    if nodes == [] then []
    else if nodes[0] == node then nodes[1..]
    else [nodes[0]] + RemoveFirst(nodes[1..], node)
  }

  /** `list.insert` */
  function Insert(nodes: seq<Node>, i: nat, node: Node): seq<Node>
    requires i <= |nodes|
  {
    nodes[..i] + [node] + nodes[i..]
  }

  lemma {:induction false} RemoveFirstAfter(before: seq<Node>, node: Node, after: seq<Node>)
    requires node !in before
    ensures RemoveFirst(before + [node] + after, node) == before + after
  {
    var all := before + [node] + after;
    if before == [] {
      assert all == [node] + after;
    } else {
      assert all[1..] == before[1..] + [node] + after;
      RemoveFirstAfter(before[1..], node, after);
      assert [before[0]] + (before[1..] + after) == before + after;
    }
  }

  lemma {:induction false} KeptMembers(nodes: seq<Node>, inits: seq<Initializer>)
    ensures forall node :: node in Kept(nodes, inits) ==> !Replaceable(node, inits)
  {
    if nodes != [] {
      KeptMembers(nodes[1..], inits);
    }
  }

  lemma {:induction false} KeptAppend(a: seq<Node>, b: seq<Node>, inits: seq<Initializer>)
    ensures Kept(a + b, inits) == Kept(a, inits) + Kept(b, inits)
  {
    if a == [] {
      assert a + b == b;
    } else {
      assert (a + b)[1..] == a[1..] + b;
      KeptAppend(a[1..], b, inits);
    }
  }

  lemma {:induction false} KeptAll(nodes: seq<Node>, inits: seq<Initializer>)
    requires forall i :: 0 <= i < |nodes| ==> !Replaceable(nodes[i], inits)
    ensures Kept(nodes, inits) == nodes
  {
    if nodes != [] {
      KeptAll(nodes[1..], inits);
    }
  }

  /** `places` lists the positions of all replaceable nodes, in order. */
  ghost predicate Places(nodes: seq<Node>, inits: seq<Initializer>, places: seq<nat>) {
    && (forall k :: 0 <= k < |places| ==> places[k] < |nodes| && Replaceable(nodes[places[k]], inits))
    && (forall j, k :: 0 <= j < k < |places| ==> places[j] < places[k])
    && (forall i :: 0 <= i < |nodes| && Replaceable(nodes[i], inits) ==> i in places)
  }

  /** The position of the k-th replaceable node; past the last one, the end of the list. */
  function PlaceOrEnd(places: seq<nat>, k: nat, end: nat): nat {
    if k < |places| then places[k] else end
  }

  lemma NoneBetween(nodes: seq<Node>, inits: seq<Initializer>, places: seq<nat>, k: nat, i: nat)
    requires Places(nodes, inits, places) && k < |places| && places[k] < i < PlaceOrEnd(places, k + 1, |nodes|)
    ensures i < |nodes| && !Replaceable(nodes[i], inits)
  {
    if i < |nodes| && Replaceable(nodes[i], inits) {
      var j :| 0 <= j < |places| && places[j] == i;
    }
  }

  lemma NoneBefore(nodes: seq<Node>, inits: seq<Initializer>, places: seq<nat>, i: nat)
    requires Places(nodes, inits, places) && i < PlaceOrEnd(places, 0, |nodes|)
    ensures i < |nodes| && !Replaceable(nodes[i], inits)
  {
  }

  lemma Between(nodes: seq<Node>, inits: seq<Initializer>, places: seq<nat>, k: nat)
    requires Places(nodes, inits, places) && k < |places|
    ensures places[k] < PlaceOrEnd(places, k + 1, |nodes|) <= |nodes|
    ensures
      var between := nodes[places[k] + 1..PlaceOrEnd(places, k + 1, |nodes|)];
      Kept(between, inits) == between
    ensures forall i :: places[k] < i < PlaceOrEnd(places, k + 1, |nodes|) ==> !Replaceable(nodes[i], inits)
  {
    var here, next := places[k], PlaceOrEnd(places, k + 1, |nodes|);
    var between := nodes[here + 1..next];
    forall i | here < i < next
      ensures !Replaceable(nodes[i], inits)
    {
      NoneBetween(nodes, inits, places, k, i);
    }
    KeptAll(between, inits);
  }

  lemma KeptAcross(nodes: seq<Node>, inits: seq<Initializer>, here: nat, next: nat)
    requires here < next <= |nodes| && Replaceable(nodes[here], inits)
    requires Kept(nodes[here + 1..next], inits) == nodes[here + 1..next]
    ensures Kept(nodes[..next], inits) == Kept(nodes[..here], inits) + nodes[here + 1..next]
    ensures Kept(nodes[here..], inits) == nodes[here + 1..next] + Kept(nodes[next..], inits)
  {
    hide Kept, Replaceable;
    KeptHead(nodes[here..next], inits);
    assert nodes[here..next][1..] == nodes[here + 1..next];
    KeptAppend(nodes[..here], nodes[here..next], inits);
    KeptAppend(nodes[here..next], nodes[next..], inits);
    assert nodes[..here] + nodes[here..next] == nodes[..next];
    assert nodes[here..next] + nodes[next..] == nodes[here..];
  }

  lemma KeptHead(nodes: seq<Node>, inits: seq<Initializer>)
    requires nodes != [] && Replaceable(nodes[0], inits)
    ensures Kept(nodes, inits) == Kept(nodes[1..], inits)
  {
  }

  /** The k-th removal takes out the k-th replaceable node, which is the first of its kind left. */
  lemma RemovalStep(nodes: seq<Node>, inits: seq<Initializer>, places: seq<nat>, k: nat)
    requires Places(nodes, inits, places) && k < |places|
    ensures
      var here, next := places[k], PlaceOrEnd(places, k + 1, |nodes|);
      && here < next <= |nodes|
      && RemoveFirst(Kept(nodes[..here], inits) + nodes[here..], nodes[here])
           == Kept(nodes[..next], inits) + nodes[next..]
  {
    var here, next := places[k], PlaceOrEnd(places, k + 1, |nodes|);
    Between(nodes, inits, places, k);
    KeptAcross(nodes, inits, here, next);
    RemovalAt(nodes, inits, here, next);
  }

  lemma RemovalAt(nodes: seq<Node>, inits: seq<Initializer>, here: nat, next: nat)
    requires here < next <= |nodes| && Replaceable(nodes[here], inits)
    ensures RemoveFirst(Kept(nodes[..here], inits) + nodes[here..], nodes[here])
         == Kept(nodes[..here], inits) + nodes[here + 1..next] + nodes[next..]
  {
    var before := Kept(nodes[..here], inits);
    KeptMembers(nodes[..here], inits);
    RemoveFirstAfter(before, nodes[here], nodes[here + 1..]);
    assert before + [nodes[here]] + nodes[here + 1..] == before + nodes[here..];
    assert before + nodes[here + 1..next] + nodes[next..] == before + nodes[here + 1..];
  }

  lemma InsertMiddle(a: seq<Node>, node: Node, b: seq<Node>, c: seq<Node>)
    ensures Insert(a + (b + c), |a|, node) == a + [node] + b + c
  {
    assert (a + (b + c))[..|a|] == a && (a + (b + c))[|a|..] == b + c;
    assert a + [node] + (b + c) == a + [node] + b + c;
  }

  /** Inserting the k-th Conv at its recorded index completes the list up to the next place. */
  lemma InsertionStep(nodes: seq<Node>, inits: seq<Initializer>, places: seq<nat>, k: nat)
    requires HaveOutputs(nodes, inits) && Places(nodes, inits, places) && k < |places|
    ensures
      var here, next := places[k], PlaceOrEnd(places, k + 1, |nodes|);
      var list := Rewritten(nodes, inits)[..here] + Kept(nodes[here..], inits);
      && here < next <= |nodes| && here <= |list|
      && Insert(list, here, ConvFor(nodes[here], inits)) == Rewritten(nodes, inits)[..next] + Kept(nodes[next..], inits)
  {
    var here, next, done := places[k], PlaceOrEnd(places, k + 1, |nodes|), Rewritten(nodes, inits);
    Between(nodes, inits, places, k);
    KeptAcross(nodes, inits, here, next);
    InsertMiddle(done[..here], done[here], nodes[here + 1..next], Kept(nodes[next..], inits));
    RewrittenAcross(nodes, inits, here, next);
  }

  lemma RewrittenAcross(nodes: seq<Node>, inits: seq<Initializer>, here: nat, next: nat)
    requires HaveOutputs(nodes, inits) && here < next <= |nodes|
    requires forall i :: here < i < next ==> !Replaceable(nodes[i], inits)
    ensures
      var done := Rewritten(nodes, inits);
      done[..here] + [done[here]] + nodes[here + 1..next] == done[..next]
  {
    var done, between := Rewritten(nodes, inits), nodes[here + 1..next];
    forall i | 0 <= i < |between|
      ensures done[here + 1 + i] == between[i]
    {
      assert between[i] == nodes[here + 1 + i];
    }
  }

  /** What the first loop has gathered after `n` nodes: the places of the replaceable ones, and the edits there. */
  ghost predicate Collected(nodes: seq<Node>, inits: seq<Initializer>, n: nat,
                            places: seq<nat>, toAdd: seq<(nat, Node)>, toRemove: seq<Node>)
    requires HaveOutputs(nodes, inits)
  {
    && n <= |nodes| && |toAdd| == |toRemove| == |places|
    && (forall k :: 0 <= k < |places| ==>
          && places[k] < n && Replaceable(nodes[places[k]], inits)
          && toRemove[k] == nodes[places[k]] && toAdd[k] == (places[k], ConvFor(nodes[places[k]], inits)))
    && (forall j, k :: 0 <= j < k < |places| ==> places[j] < places[k])
    && (forall j :: 0 <= j < n && Replaceable(nodes[j], inits) ==> j in places)
  }

  lemma CollectedOneMore(nodes: seq<Node>, inits: seq<Initializer>, n: nat,
                         places: seq<nat>, toAdd: seq<(nat, Node)>, toRemove: seq<Node>)
    requires HaveOutputs(nodes, inits) && n < |nodes| && Collected(nodes, inits, n, places, toAdd, toRemove)
    ensures if !Replaceable(nodes[n], inits) then Collected(nodes, inits, n + 1, places, toAdd, toRemove)
      else Collected(nodes, inits, n + 1, places + [n], toAdd + [(n, ConvFor(nodes[n], inits))], toRemove + [nodes[n]])
  {
    hide ConvFor;
  }

  lemma NewWeightsOneMore(nodes: seq<Node>, inits: seq<Initializer>, n: nat)
    requires n < |nodes|
    ensures NewWeights(nodes[..n + 1], inits)
      == NewWeights(nodes[..n], inits) + if Replaceable(nodes[n], inits) then [WeightsFor(nodes[n], inits)] else []
  {
    assert nodes[..n + 1][..n] == nodes[..n];
  }

  lemma CollectedAll(nodes: seq<Node>, inits: seq<Initializer>,
                     places: seq<nat>, toAdd: seq<(nat, Node)>, toRemove: seq<Node>)
    requires HaveOutputs(nodes, inits) && Collected(nodes, inits, |nodes|, places, toAdd, toRemove)
    ensures Places(nodes, inits, places) && |toAdd| == |toRemove| == |places|
    ensures forall k :: 0 <= k < |places| ==>
      toRemove[k] == nodes[places[k]] && toAdd[k] == (places[k], ConvFor(nodes[places[k]], inits))
  {
  }

  class Graph {
    var node: seq<Node>
    var initializer: seq<Initializer>

    constructor (node: seq<Node>, initializer: seq<Initializer>)
      ensures this.node == node && this.initializer == initializer
    {
      this.node, this.initializer := node, initializer;
    }

    /** Collects the replaceable nodes, removes them all, then inserts the Convs at the recorded indices. */
    method ReplaceSliceWithConv()
      requires HaveOutputs(node, initializer)
      modifies this
      ensures node == Rewritten(old(node), old(initializer))
      ensures initializer == old(initializer) + NewWeights(old(node), old(initializer))
      ensures SlicesReplaced(old(node), old(initializer), node)
      ensures WeightsAdded(old(node), old(initializer), initializer)
    {
      ghost var places: seq<nat> := [];
      var toAdd: seq<(nat, Node)> := [];
      var toRemove: seq<Node> := [];
      var weightsToAdd: seq<Initializer> := [];
      var nodes, inits := node, initializer;
      for i := 0 to |nodes|
        invariant node == nodes && initializer == inits
        invariant Collected(nodes, inits, i, places, toAdd, toRemove)
        invariant weightsToAdd == NewWeights(nodes[..i], inits)
      {
        NewWeightsOneMore(nodes, inits, i);
        CollectedOneMore(nodes, inits, i, places, toAdd, toRemove);
        hide Collected, NewWeights;
        if Replaceable(nodes[i], inits) {
          toAdd := toAdd + [(i, ConvFor(nodes[i], inits))];
          weightsToAdd := weightsToAdd + [WeightsFor(nodes[i], inits)];
          toRemove := toRemove + [nodes[i]];
          places := places + [i];
        }
      }
      assert nodes[..|nodes|] == nodes;
      CollectedAll(nodes, inits, places, toAdd, toRemove);
      RemoveAll(nodes, inits, places, toRemove);
      InsertAll(nodes, inits, places, toAdd);
      initializer := initializer + weightsToAdd;
      RewrittenReplaces(nodes, inits);
      NewWeightsAdded(nodes, inits);
      hide SlicesReplaced, WeightsAdded;
    }

    method RemoveAll(nodes: seq<Node>, ghost inits: seq<Initializer>, ghost places: seq<nat>, toRemove: seq<Node>)
      requires node == nodes && Places(nodes, inits, places) && |toRemove| == |places|
      requires forall k :: 0 <= k < |places| ==> toRemove[k] == nodes[places[k]]
      modifies this`node
      ensures node == Kept(nodes, inits)
    {
      ghost var first := PlaceOrEnd(places, 0, |nodes|);
      forall i | 0 <= i < first
        ensures !Replaceable(nodes[i], inits)
      {
        NoneBefore(nodes, inits, places, i);
      }
      KeptAll(nodes[..first], inits);
      assert nodes[..first] + nodes[first..] == nodes;
      for k := 0 to |toRemove|
        invariant node == Kept(nodes[..PlaceOrEnd(places, k, |nodes|)], inits) + nodes[PlaceOrEnd(places, k, |nodes|)..]
      {
        RemovalStep(nodes, inits, places, k);
        node := RemoveFirst(node, toRemove[k]);
      }
      assert nodes[..|nodes|] == nodes;
    }

    method InsertAll(ghost nodes: seq<Node>, ghost inits: seq<Initializer>, ghost places: seq<nat>,
                     toAdd: seq<(nat, Node)>)
      requires HaveOutputs(nodes, inits) && node == Kept(nodes, inits)
      requires Places(nodes, inits, places) && |toAdd| == |places|
      requires forall k :: 0 <= k < |places| ==> toAdd[k] == (places[k], ConvFor(nodes[places[k]], inits))
      modifies this`node
      ensures node == Rewritten(nodes, inits)
    {
      ghost var first, done := PlaceOrEnd(places, 0, |nodes|), Rewritten(nodes, inits);
      forall i | 0 <= i < first
        ensures !Replaceable(nodes[i], inits) && done[i] == nodes[i]
      {
        NoneBefore(nodes, inits, places, i);
      }
      KeptAll(nodes[..first], inits);
      KeptAppend(nodes[..first], nodes[first..], inits);
      assert nodes[..first] + nodes[first..] == nodes;
      assert done[..first] == nodes[..first];
      for k := 0 to |toAdd|
        invariant node == done[..PlaceOrEnd(places, k, |nodes|)] + Kept(nodes[PlaceOrEnd(places, k, |nodes|)..], inits)
      {
        InsertionStep(nodes, inits, places, k);
        node := Insert(node, toAdd[k].0, toAdd[k].1);
      }
      assert done[..|nodes|] == done;
    }
  }
}
