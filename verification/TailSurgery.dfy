/** Cutting the detection head off the graph: the node edits, and what the pruned graph computes. */
module TailSurgery {
  import opened Onnx
  import opened GraphRewrite
  import opened Wrappers

  function Rename(renames: map<string, string>, x: string): string {
    if x in renames then renames[x] else x
  }

  function Renamed(node: Node, renames: map<string, string>): Node {
    node.(outputs := seq(|node.outputs|, i requires 0 <= i < |node.outputs| => Rename(renames, node.outputs[i])))
  }

  predicate Gone(node: Node, gone: set<string>) {
    node.outputs != [] && node.outputs[0] in gone
  }

  /** The nodes without those that produce a name in `gone`, and with produced names replaced. */
  function Pruned(nodes: seq<Node>, gone: set<string>, renames: map<string, string>): seq<Node> {
    if nodes == [] then [] else
    var last := nodes[|nodes| - 1];
    Pruned(nodes[..|nodes| - 1], gone, renames) + if Gone(last, gone) then [] else [Renamed(last, renames)]
  }

  /** Every name is produced by one node only, at one place. */
  ghost predicate UniqueOutputs(nodes: seq<Node>) {
    && (forall i :: 0 <= i < |nodes| ==> nodes[i].outputs != [])
    && (forall i, k, l :: 0 <= i < |nodes| && 0 <= k < l < |nodes[i].outputs| ==>
          nodes[i].outputs[k] != nodes[i].outputs[l])
    && (forall i, j, k, l :: 0 <= i < j < |nodes| && 0 <= k < |nodes[i].outputs| && 0 <= l < |nodes[j].outputs| ==>
          nodes[i].outputs[k] != nodes[j].outputs[l])
  }

  // The three edits, in terms of pruned lists

  /** The first node that has an output of the given name. */
  function FindProducer(nodes: seq<Node>, name: string): Option<nat> {
    if nodes == [] then None
    else if name in nodes[0].outputs then Some(0)
    else var rest := FindProducer(nodes[1..], name);
      if rest.Some? then Some(rest.value + 1) else None
  }

  lemma {:induction false} FindProducerAfter(before: seq<Node>, node: Node, after: seq<Node>, name: string)
    requires name in node.outputs && forall i :: 0 <= i < |before| ==> name !in before[i].outputs
    ensures FindProducer(before + [node] + after, name) == Some(|before|)
  {
    var all := before + [node] + after;
    if before != [] {
      assert all[1..] == before[1..] + [node] + after;
      FindProducerAfter(before[1..], node, after, name);
    }
  }

  lemma {:induction false} PrunedAppend(a: seq<Node>, b: seq<Node>, gone: set<string>, renames: map<string, string>)
    ensures Pruned(a + b, gone, renames) == Pruned(a, gone, renames) + Pruned(b, gone, renames)
  {
    if b == [] {
      assert a + b == a;
    } else {
      assert (a + b)[..|a + b| - 1] == a + b[..|b| - 1];
      PrunedAppend(a, b[..|b| - 1], gone, renames);
    }
  }

  lemma {:induction false} PrunedMembers(nodes: seq<Node>, gone: set<string>, renames: map<string, string>, p: nat)
    returns (i: nat)
    requires p < |Pruned(nodes, gone, renames)|
    ensures i < |nodes| && !Gone(nodes[i], gone) && Pruned(nodes, gone, renames)[p] == Renamed(nodes[i], renames)
  {
    var last := |nodes| - 1;
    if p < |Pruned(nodes[..last], gone, renames)| {
      i := PrunedMembers(nodes[..last], gone, renames, p);
    } else {
      i := last;
    }
  }

  lemma {:induction false} PrunedCongruent(nodes: seq<Node>, gone: set<string>, renames: map<string, string>,
                                           gone': set<string>, renames': map<string, string>)
    requires forall i :: 0 <= i < |nodes| ==>
      (Gone(nodes[i], gone) <==> Gone(nodes[i], gone')) &&
      (!Gone(nodes[i], gone) ==> Renamed(nodes[i], renames) == Renamed(nodes[i], renames'))
    ensures Pruned(nodes, gone, renames) == Pruned(nodes, gone', renames')
  {
    if nodes != [] {
      PrunedCongruent(nodes[..|nodes| - 1], gone, renames, gone', renames');
    }
  }

  lemma PrunedAround(nodes: seq<Node>, gone: set<string>, renames: map<string, string>, i: nat)
    requires i < |nodes|
    ensures Pruned(nodes, gone, renames) == Pruned(nodes[..i], gone, renames)
      + (if Gone(nodes[i], gone) then [] else [Renamed(nodes[i], renames)]) + Pruned(nodes[i + 1..], gone, renames)
  {
    PrunedAppend(nodes[..i] + [nodes[i]], nodes[i + 1..], gone, renames);
    PrunedAppend(nodes[..i], [nodes[i]], gone, renames);
    assert nodes[..i] + [nodes[i]] + nodes[i + 1..] == nodes;
    assert Pruned([nodes[i]], gone, renames) == if Gone(nodes[i], gone) then [] else [Renamed(nodes[i], renames)];
  }

  /** Among the kept nodes, only node `i` has an output that is now called `name`, its first one. */
  ghost predicate OnlyProducer(nodes: seq<Node>, gone: set<string>, renames: map<string, string>, i: nat,
                               name: string) {
    && i < |nodes| && nodes[i].outputs != [] && !Gone(nodes[i], gone) && Rename(renames, nodes[i].outputs[0]) == name
    && forall j, k :: 0 <= j < |nodes| && j != i && !Gone(nodes[j], gone) && 0 <= k < |nodes[j].outputs| ==>
         Rename(renames, nodes[j].outputs[k]) != name
  }

  lemma FindInPruned(nodes: seq<Node>, gone: set<string>, renames: map<string, string>, i: nat, name: string)
    requires OnlyProducer(nodes, gone, renames, i, name)
    ensures
      var list, p := Pruned(nodes, gone, renames), |Pruned(nodes[..i], gone, renames)|;
      FindProducer(list, name) == Some(p) && p < |list| && list[p] == Renamed(nodes[i], renames)
  {
    var before := Pruned(nodes[..i], gone, renames);
    PrunedAround(nodes, gone, renames, i);
    forall q | 0 <= q < |before|
      ensures name !in before[q].outputs
    {
      var j := PrunedMembers(nodes[..i], gone, renames, q);
      assert nodes[..i][j] == nodes[j];
    }
    assert Renamed(nodes[i], renames).outputs[0] == name;
    FindProducerAfter(before, Renamed(nodes[i], renames), Pruned(nodes[i + 1..], gone, renames), name);
  }

  /** Changes that concern node `i` only leave the pruned lists before and after it alone. */
  lemma OthersCongruent(nodes: seq<Node>, gone: set<string>, renames: map<string, string>,
                        gone': set<string>, renames': map<string, string>, i: nat)
    requires i < |nodes|
    requires forall j :: 0 <= j < |nodes| && j != i ==>
      (Gone(nodes[j], gone) <==> Gone(nodes[j], gone')) &&
      (!Gone(nodes[j], gone) ==> Renamed(nodes[j], renames) == Renamed(nodes[j], renames'))
    ensures Pruned(nodes[..i], gone, renames) == Pruned(nodes[..i], gone', renames')
    ensures Pruned(nodes[i + 1..], gone, renames) == Pruned(nodes[i + 1..], gone', renames')
  {
    var before, after := nodes[..i], nodes[i + 1..];
    forall j | 0 <= j < |before|
      ensures before[j] == nodes[j]
    {
    }
    forall j | 0 <= j < |after|
      ensures after[j] == nodes[i + 1 + j]
    {
    }
    PrunedCongruent(before, gone, renames, gone', renames');
    PrunedCongruent(after, gone, renames, gone', renames');
  }

  lemma RenamedElsewhere(nodes: seq<Node>, renames: map<string, string>, i: nat, j: nat, to: string)
    requires UniqueOutputs(nodes) && i < |nodes| && j < |nodes| && i != j
    ensures Renamed(nodes[j], renames[nodes[i].outputs[0] := to]) == Renamed(nodes[j], renames)
  {
    var from := nodes[i].outputs[0];
    forall k | 0 <= k < |nodes[j].outputs|
      ensures nodes[j].outputs[k] != from
    {
    }
    assert Renamed(nodes[j], renames[from := to]).outputs == Renamed(nodes[j], renames).outputs;
  }

  lemma RenamedFirst(node: Node, renames: map<string, string>, to: string)
    requires node.outputs != [] && node.outputs[0] !in renames
    requires forall k :: 0 < k < |node.outputs| ==> node.outputs[k] != node.outputs[0]
    ensures Renamed(node, renames[node.outputs[0] := to])
         == Renamed(node, renames).(outputs := Renamed(node, renames).outputs[0 := to])
  {
    assert Renamed(node, renames[node.outputs[0] := to]).outputs == Renamed(node, renames).outputs[0 := to];
  }

  lemma ReplaceMiddle(a: seq<Node>, x: Node, c: seq<Node>, y: Node)
    ensures (a + [x] + c)[|a| := y] == a + [y] + c
  {
  }

  /** Overwriting the first output of the producer of a name renames that name. */
  lemma OverwriteIsRenaming(nodes: seq<Node>, gone: set<string>, renames: map<string, string>, i: nat, to: string)
    requires UniqueOutputs(nodes) && i < |nodes| && nodes[i].outputs != [] && nodes[i].outputs[0] !in renames
    requires OnlyProducer(nodes, gone, renames, i, nodes[i].outputs[0])
    ensures
      var list, p := Pruned(nodes, gone, renames), |Pruned(nodes[..i], gone, renames)|;
      && p < |list| && list[p].outputs != []
      && list[p := list[p].(outputs := list[p].outputs[0 := to])]
           == Pruned(nodes, gone, renames[nodes[i].outputs[0] := to])
  {
    var renames' := renames[nodes[i].outputs[0] := to];
    FindInPruned(nodes, gone, renames, i, nodes[i].outputs[0]);
    PrunedAround(nodes, gone, renames, i);
    PrunedAround(nodes, gone, renames', i);
    forall j: nat | j < |nodes| && j != i
      ensures Renamed(nodes[j], renames) == Renamed(nodes[j], renames')
    {
      RenamedElsewhere(nodes, renames, i, j, to);
    }
    OthersCongruent(nodes, gone, renames, gone, renames', i);
    RenamedFirst(nodes[i], renames, to);
    ReplaceMiddle(Pruned(nodes[..i], gone, renames), Renamed(nodes[i], renames), Pruned(nodes[i + 1..], gone, renames),
                  Renamed(nodes[i], renames'));
  }

  lemma NotBefore(nodes: seq<Node>, gone: set<string>, renames: map<string, string>, i: nat, name: string)
    requires UniqueOutputs(nodes) && OnlyProducer(nodes, gone, renames, i, name)
    ensures Renamed(nodes[i], renames) !in Pruned(nodes[..i], gone, renames)
  {
    var before := Pruned(nodes[..i], gone, renames);
    forall q | 0 <= q < |before|
      ensures before[q] != Renamed(nodes[i], renames)
    {
      var j := PrunedMembers(nodes[..i], gone, renames, q);
      assert nodes[..i][j] == nodes[j];
      assert Renamed(nodes[i], renames).outputs[0] == name;
      assert Renamed(nodes[j], renames).outputs[0] == Rename(renames, nodes[j].outputs[0]);
    }
  }

  /** Removing the producer of a name adds the name to those gone. */
  lemma {:induction false} RemovalIsGone(nodes: seq<Node>, gone: set<string>, renames: map<string, string>, i: nat)
    requires UniqueOutputs(nodes) && i < |nodes| && !Gone(nodes[i], gone)
    requires Renamed(nodes[i], renames) !in Pruned(nodes[..i], gone, renames)
    ensures nodes[i].outputs != []
    ensures RemoveFirst(Pruned(nodes, gone, renames), Renamed(nodes[i], renames))
         == Pruned(nodes, gone + {nodes[i].outputs[0]}, renames)
  {
    var gone' := gone + {nodes[i].outputs[0]};
    GoneElsewhere(nodes, gone, i);
    hide UniqueOutputs, Renamed, Pruned;
    PrunedAround(nodes, gone, renames, i);
    PrunedAround(nodes, gone', renames, i);
    OthersCongruent(nodes, gone, renames, gone', renames, i);
    RemoveFirstAfter(Pruned(nodes[..i], gone, renames), Renamed(nodes[i], renames),
                     Pruned(nodes[i + 1..], gone, renames));
    assert Pruned(nodes[..i], gone, renames) + [] == Pruned(nodes[..i], gone, renames);
  }

  lemma GoneElsewhere(nodes: seq<Node>, gone: set<string>, i: nat)
    requires UniqueOutputs(nodes) && i < |nodes|
    ensures nodes[i].outputs != [] && Gone(nodes[i], gone + {nodes[i].outputs[0]})
    ensures forall j :: 0 <= j < |nodes| && j != i ==>
      (Gone(nodes[j], gone) <==> Gone(nodes[j], gone + {nodes[i].outputs[0]}))
  {
  }

  lemma {:induction false} PrunedNothing(nodes: seq<Node>)
    ensures Pruned(nodes, {}, map[]) == nodes
  {
    if nodes != [] {
      var last := nodes[|nodes| - 1];
      PrunedNothing(nodes[..|nodes| - 1]);
      assert Renamed(last, map[]).outputs == last.outputs;
    }
  }
}
