/** The surgery script's cut: which nodes go, which outputs are renamed, as the list is edited step by step. */
module PruneTail {
  import opened Wrappers
  import opened Onnx
  import opened GraphRewrite
  import opened TailSurgery
  import opened Seqs

  const OUTPUT := "output"
  const DIGITS := "0123456789"

  function Decimal(n: nat): string {
    if n < 10 then [DIGITS[n]] else Decimal(n / 10) + [DIGITS[n % 10]]
  }

  function OutName(i: nat): string { "output_" + Decimal(i) }

  /** The number that decimal digits stand for. */
  function ReadDecimal(digits: string): nat {
    if digits == [] then 0 else 10 * ReadDecimal(digits[..|digits| - 1]) + DigitValue(digits[|digits| - 1])
  }

  function DigitValue(c: char): nat { if '0' <= c <= '9' then c as int - '0' as int else 0 }

  /** Numbers are printed in decimal, without leading zeros. */
  lemma {:induction false} DecimalReads(n: nat)
    ensures ReadDecimal(Decimal(n)) == n
    ensures |Decimal(n)| > 0 && (Decimal(n)[0] == '0' ==> n == 0)
    ensures forall i :: 0 <= i < |Decimal(n)| ==> '0' <= Decimal(n)[i] <= '9'
  {
    DigitReads(n % 10);
    if n < 10 {
      assert Decimal(n)[..0] == [];
    } else {
      DecimalReads(n / 10);
      assert Decimal(n)[..|Decimal(n)| - 1] == Decimal(n / 10);
    }
  }

  lemma DigitReads(d: nat)
    requires d < 10
    ensures '0' <= DIGITS[d] <= '9' && DIGITS[d] as int - '0' as int == d
  {
  }

  lemma {:induction false} DecimalInjective(m: nat, n: nat)
    requires Decimal(m) == Decimal(n)
    ensures m == n
  {
    assert |Decimal(m)| >= 1 && |Decimal(n)| >= 1;
    if m >= 10 && n >= 10 {
      assert Decimal(m)[..|Decimal(m)| - 1] == Decimal(m / 10) && Decimal(n)[..|Decimal(n)| - 1] == Decimal(n / 10);
      DecimalInjective(m / 10, n / 10);
      assert Decimal(m)[|Decimal(m)| - 1] == DIGITS[m % 10] && Decimal(n)[|Decimal(n)| - 1] == DIGITS[n % 10];
    } else {
      DecimalLength(m);
      DecimalLength(n);
      assert Decimal(m)[0] == Decimal(n)[0];
    }
  }

  lemma DecimalLength(n: nat)
    ensures n >= 10 ==> |Decimal(n)| >= 2
  {
    if n >= 10 {
      assert |Decimal(n / 10)| >= 1;
    }
  }

  lemma OutNamesDistinct(i: nat, j: nat)
    ensures OutName(i) == OutName(j) <==> i == j
    ensures OutName(i) != OUTPUT
  {
    if OutName(i) == OutName(j) {
      assert OutName(i)[7..] == Decimal(i) && OutName(j)[7..] == Decimal(j);
      DecimalInjective(i, j);
    }
    assert |Decimal(i)| >= 1;
  }

  /** Where the head's nodes stand in the list; reshapes and branches in the Concat's input order. */
  datatype Tail = Tail(transpose: nat, concat: nat, reshapes: seq<nat>, branches: seq<nat>)

  ghost predicate HeadNode(t: Tail, i: nat) {
    i == t.transpose || i == t.concat || i in t.reshapes
  }

  /** The graph ends in Transpose(Concat(Reshape(branch_0), Reshape(branch_1), ...)). */
  ghost predicate HasTail(nodes: seq<Node>, t: Tail) {
    && UniqueOutputs(nodes)
    && t.transpose < |nodes| && t.concat < |nodes| && t.transpose != t.concat && |t.reshapes| == |t.branches|
    && (forall i :: 0 <= i < |t.reshapes| ==> t.reshapes[i] < |nodes| && t.branches[i] < |nodes|)
    && (forall i, j :: 0 <= i < j < |t.reshapes| ==> t.reshapes[i] != t.reshapes[j] && t.branches[i] != t.branches[j])
    && (forall i :: 0 <= i < |t.reshapes| ==> t.reshapes[i] != t.transpose && t.reshapes[i] != t.concat)
    && (forall i :: 0 <= i < |t.branches| ==> !HeadNode(t, t.branches[i]))
    && nodes[t.transpose].outputs == [OUTPUT]
    && nodes[t.transpose].inputs == [nodes[t.concat].outputs[0]]
    && |nodes[t.concat].outputs| == 1 && |nodes[t.concat].inputs| == |t.reshapes|
    && (forall i :: 0 <= i < |t.reshapes| ==>
          && nodes[t.concat].inputs[i] == nodes[t.reshapes[i]].outputs[0]
          && |nodes[t.reshapes[i]].outputs| == 1 && |nodes[t.reshapes[i]].inputs| == 2
          && nodes[t.reshapes[i]].inputs[0] == nodes[t.branches[i]].outputs[0])
    && (forall i, j, k :: 0 <= i < |nodes| && 0 <= k < |nodes[i].outputs| && 0 <= j < |t.branches| ==>
          nodes[i].outputs[k] != OutName(j))
  }

  ghost function FirstOut(nodes: seq<Node>, i: nat): string
    requires i < |nodes| && nodes[i].outputs != []
  {
    nodes[i].outputs[0]
  }

  /** What is gone, and what is renamed, once `n` branches have been cut. */
  ghost function GoneAt(nodes: seq<Node>, t: Tail, n: nat): set<string>
    requires HasTail(nodes, t) && n <= |t.reshapes|
  {
    if n == 0 then {OUTPUT} else GoneAt(nodes, t, n - 1) + {FirstOut(nodes, t.reshapes[n - 1])}
  }

  ghost function RenamesAt(nodes: seq<Node>, t: Tail, n: nat): map<string, string>
    requires HasTail(nodes, t) && n <= |t.branches|
  {
    if n == 0 then map[FirstOut(nodes, t.concat) := OUTPUT]
    else RenamesAt(nodes, t, n - 1)[FirstOut(nodes, t.branches[n - 1]) := OutName(n - 1)]
  }

  lemma SameOutput(nodes: seq<Node>, i: nat, j: nat)
    requires UniqueOutputs(nodes) && i < |nodes| && j < |nodes|
    ensures FirstOut(nodes, i) == FirstOut(nodes, j) <==> i == j
  {
  }

  lemma TailShape(nodes: seq<Node>, t: Tail)
    requires HasTail(nodes, t)
    ensures UniqueOutputs(nodes) && forall i :: 0 <= i < |nodes| ==> nodes[i].outputs != []
    ensures t.transpose < |nodes| && t.concat < |nodes| && t.transpose != t.concat && |t.reshapes| == |t.branches|
    ensures forall i :: 0 <= i < |t.reshapes| ==> t.reshapes[i] < |nodes| && t.branches[i] < |nodes|
    ensures FirstOut(nodes, t.transpose) == OUTPUT
  {
  }

  lemma {:induction false} GoneIs(nodes: seq<Node>, t: Tail, n: nat, i: nat)
    requires HasTail(nodes, t) && n <= |t.reshapes| && i < |nodes|
    ensures Gone(nodes[i], GoneAt(nodes, t, n)) <==> i == t.transpose || i in t.reshapes[..n]
  {
    hide HasTail, UniqueOutputs;
    TailShape(nodes, t);
    if n == 0 {
      SameOutput(nodes, i, t.transpose);
    } else {
      GoneStep(nodes, t, n - 1);
      hide GoneAt;
      GoneIs(nodes, t, n - 1, i);
      InTakeOneMore(t.reshapes, n - 1, i);
      SameOutput(nodes, i, t.reshapes[n - 1]);
    }
  }

  lemma {:induction false} RenamedNodes(nodes: seq<Node>, t: Tail, n: nat, i: nat)
    requires HasTail(nodes, t) && n <= |t.branches| && i < |nodes|
    ensures FirstOut(nodes, i) in RenamesAt(nodes, t, n) <==> i == t.concat || i in t.branches[..n]
  {
    hide HasTail, UniqueOutputs, RenamesAt, OutName;
    TailShape(nodes, t);
    RenamesStep(nodes, t, n);
    if n == 0 {
      SameOutput(nodes, i, t.concat);
    } else {
      RenamedNodes(nodes, t, n - 1, i);
      InTakeOneMore(t.branches, n - 1, i);
      SameOutput(nodes, i, t.branches[n - 1]);
    }
  }

  lemma BranchesDiffer(nodes: seq<Node>, t: Tail, n: nat)
    requires HasTail(nodes, t) && n < |t.branches|
    ensures FirstOut(nodes, t.branches[n]) != FirstOut(nodes, t.concat)
    ensures forall j :: 0 <= j < n ==> FirstOut(nodes, t.branches[j]) != FirstOut(nodes, t.branches[n])
  {
    assert !HeadNode(t, t.branches[n]);
    SameOutput(nodes, t.branches[n], t.concat);
    forall j | 0 <= j < n
      ensures FirstOut(nodes, t.branches[j]) != FirstOut(nodes, t.branches[n])
    {
      SameOutput(nodes, t.branches[j], t.branches[n]);
    }
  }

  lemma RenamesStep(nodes: seq<Node>, t: Tail, n: nat)
    requires HasTail(nodes, t) && n <= |t.branches|
    ensures
      if n == 0 then RenamesAt(nodes, t, n) == map[FirstOut(nodes, t.concat) := OUTPUT]
      else RenamesAt(nodes, t, n) == RenamesAt(nodes, t, n - 1)[FirstOut(nodes, t.branches[n - 1]) := OutName(n - 1)]
  {
  }

  lemma {:induction false} ConcatRenamed(nodes: seq<Node>, t: Tail, n: nat)
    requires HasTail(nodes, t) && n <= |t.branches|
    ensures
      var x := FirstOut(nodes, t.concat);
      x in RenamesAt(nodes, t, n) && RenamesAt(nodes, t, n)[x] == OUTPUT
  {
    hide HasTail, UniqueOutputs, RenamesAt, OutName;
    TailShape(nodes, t);
    RenamesStep(nodes, t, n);
    if n > 0 {
      ConcatRenamed(nodes, t, n - 1);
      BranchesDiffer(nodes, t, n - 1);
    }
  }

  lemma {:induction false} BranchRenamed(nodes: seq<Node>, t: Tail, n: nat, j: nat)
    requires HasTail(nodes, t) && j < n <= |t.branches|
    ensures
      var x := FirstOut(nodes, t.branches[j]);
      x in RenamesAt(nodes, t, n) && RenamesAt(nodes, t, n)[x] == OutName(j)
  {
    hide HasTail, UniqueOutputs, RenamesAt, OutName;
    TailShape(nodes, t);
    RenamesStep(nodes, t, n);
    if j < n - 1 {
      BranchesDiffer(nodes, t, n - 1);
      BranchRenamed(nodes, t, n - 1, j);
    }
  }

  lemma {:induction false} RenameOrigin(nodes: seq<Node>, t: Tail, n: nat, x: string)
    requires HasTail(nodes, t) && n <= |t.branches| && x in RenamesAt(nodes, t, n)
    ensures x == FirstOut(nodes, t.concat) || exists j :: 0 <= j < n && x == FirstOut(nodes, t.branches[j])
  {
    hide HasTail, UniqueOutputs, RenamesAt, OutName;
    TailShape(nodes, t);
    RenamesStep(nodes, t, n);
    if n > 0 && x != FirstOut(nodes, t.branches[n - 1]) {
      RenameOrigin(nodes, t, n - 1, x);
    }
  }

  lemma RenamesTo(nodes: seq<Node>, t: Tail, n: nat, x: string)
    requires HasTail(nodes, t) && n <= |t.branches| && x in RenamesAt(nodes, t, n)
    ensures x == FirstOut(nodes, t.concat) || exists j :: 0 <= j < n && x == FirstOut(nodes, t.branches[j])
    ensures x == FirstOut(nodes, t.concat) ==> RenamesAt(nodes, t, n)[x] == OUTPUT
    ensures forall j :: 0 <= j < n && x == FirstOut(nodes, t.branches[j]) ==> RenamesAt(nodes, t, n)[x] == OutName(j)
  {
    hide HasTail, UniqueOutputs, RenamesAt;
    TailShape(nodes, t);
    RenameOrigin(nodes, t, n, x);
    ConcatRenamed(nodes, t, n);
    forall j | 0 <= j < n && x == FirstOut(nodes, t.branches[j])
      ensures RenamesAt(nodes, t, n)[x] == OutName(j)
    {
      BranchRenamed(nodes, t, n, j);
    }
  }

  /** New names are not produced by any node, except the name of the graph's output. */
  lemma RenamedIsNew(nodes: seq<Node>, t: Tail, n: nat, x: string, i: nat, k: nat)
    requires HasTail(nodes, t) && n <= |t.branches| && x in RenamesAt(nodes, t, n)
    requires i < |nodes| && k < |nodes[i].outputs| && i != t.transpose
    ensures RenamesAt(nodes, t, n)[x] != nodes[i].outputs[k]
  {
    RenamesTo(nodes, t, n, x);
    assert nodes[t.transpose].outputs[0] == OUTPUT;
  }

  /** A kept node whose output is not renamed is the only one with that output. */
  lemma PlainProducer(nodes: seq<Node>, t: Tail, n: nat, i: nat)
    requires HasTail(nodes, t) && n <= |t.branches| && i < |nodes| && i != t.transpose && i !in t.reshapes[..n]
    requires FirstOut(nodes, i) !in RenamesAt(nodes, t, n)
    ensures OnlyProducer(nodes, GoneAt(nodes, t, n), RenamesAt(nodes, t, n), i, FirstOut(nodes, i))
  {
    var gone, renames := GoneAt(nodes, t, n), RenamesAt(nodes, t, n);
    GoneIs(nodes, t, n, i);
    forall j, k | 0 <= j < |nodes| && j != i && !Gone(nodes[j], gone) && 0 <= k < |nodes[j].outputs|
      ensures Rename(renames, nodes[j].outputs[k]) != FirstOut(nodes, i)
    {
      if nodes[j].outputs[k] in renames {
        RenamedIsNew(nodes, t, n, nodes[j].outputs[k], i, 0);
      }
    }
  }

  /** Once the Transpose is gone, the Concat is the only producer of the graph's output. */
  lemma ConcatProduces(nodes: seq<Node>, t: Tail, n: nat)
    requires HasTail(nodes, t) && n <= |t.branches|
    ensures OnlyProducer(nodes, GoneAt(nodes, t, n), RenamesAt(nodes, t, n), t.concat, OUTPUT)
  {
    var gone, renames := GoneAt(nodes, t, n), RenamesAt(nodes, t, n);
    GoneIs(nodes, t, n, t.concat);
    RenamedNodes(nodes, t, n, t.concat);
    RenamesTo(nodes, t, n, FirstOut(nodes, t.concat));
    GoneIs(nodes, t, n, t.transpose);
    forall j, k | 0 <= j < |nodes| && j != t.concat && !Gone(nodes[j], gone) && 0 <= k < |nodes[j].outputs|
      ensures Rename(renames, nodes[j].outputs[k]) != OUTPUT
    {
      var x := nodes[j].outputs[k];
      if x in renames {
        RenamesTo(nodes, t, n, x);
        var m :| 0 <= m < n && x == FirstOut(nodes, t.branches[m]);
        OutNamesDistinct(m, m);
      } else {
        assert nodes[t.transpose].outputs[0] == OUTPUT;
      }
    }
  }

  lemma RenamedUnchanged(node: Node, renames: map<string, string>)
    requires |node.outputs| == 1 && node.outputs[0] !in renames
    ensures Renamed(node, renames) == node
  {
    assert Renamed(node, renames).outputs == node.outputs;
  }

  lemma ConcatReadsOther(nodes: seq<Node>, t: Tail)
    requires HasTail(nodes, t)
    ensures nodes[t.concat].inputs != nodes[t.transpose].inputs
  {
    if |t.reshapes| > 0 {
      SameOutput(nodes, t.reshapes[0], t.concat);
      assert nodes[t.concat].inputs[0] != nodes[t.transpose].inputs[0];
    }
  }

  lemma TransposeNotBefore(nodes: seq<Node>, t: Tail)
    requires HasTail(nodes, t)
    ensures nodes[t.transpose] !in Pruned(nodes[..t.transpose], {}, RenamesAt(nodes, t, 0))
  {
    var renames := RenamesAt(nodes, t, 0);
    var before := Pruned(nodes[..t.transpose], {}, renames);
    forall q | 0 <= q < |before|
      ensures before[q] != nodes[t.transpose]
    {
      var j := PrunedMembers(nodes[..t.transpose], {}, renames, q);
      assert nodes[..t.transpose][j] == nodes[j];
      SameOutput(nodes, j, t.concat);
      SameOutput(nodes, j, t.transpose);
      if j == t.concat {
        ConcatReadsOther(nodes, t);
      } else {
        assert before[q].outputs[0] == Rename(renames, nodes[j].outputs[0]);
      }
    }
  }

  // What the list is at each stage of the cut, without reference to the functions above

  /** The places of the nodes that remain once `n` branches are cut: all but the head nodes cut so far. */
  ghost predicate Remain(kept: seq<nat>, nodes: seq<Node>, t: Tail, n: nat, concatGone: bool)
    requires n <= |t.reshapes|
  {
    && (forall k :: 0 <= k < |kept| ==> kept[k] < |nodes|)
    && (forall j, k :: 0 <= j < k < |kept| ==> kept[j] < kept[k])
    && (forall i :: 0 <= i < |nodes| ==>
          (i in kept <==> i != t.transpose && !(concatGone && i == t.concat) && i !in t.reshapes[..n]))
  }

  /** A remaining node has only its first output renamed: to the old output's name, or to that of a new output. */
  ghost predicate NodeCut(after: Node, nodes: seq<Node>, t: Tail, n: nat, i: nat)
    requires i < |nodes| && n <= |t.branches|
  {
    && nodes[i].outputs != [] && after.outputs != []
    && after == nodes[i].(outputs := nodes[i].outputs[0 := after.outputs[0]])
    && (i == t.concat ==> after.outputs[0] == "output")
    && (forall j :: 0 <= j < n && i == t.branches[j] ==> after.outputs[0] == "output_" + Decimal(j))
    && (i != t.concat && i !in t.branches[..n] ==> after.outputs[0] == nodes[i].outputs[0])
  }

  ghost predicate Stage(nodes: seq<Node>, t: Tail, n: nat, concatGone: bool, list: seq<Node>)
    requires n <= |t.reshapes| && n <= |t.branches|
  {
    exists kept :: Remain(kept, nodes, t, n, concatGone) && |list| == |kept|
      && forall k :: 0 <= k < |kept| ==> NodeCut(list[k], nodes, t, n, kept[k])
  }

  /** Which nodes a pruned list keeps. */
  lemma {:induction false} PrunedKept(nodes: seq<Node>, gone: set<string>, renames: map<string, string>)
    returns (kept: seq<nat>)
    ensures |Pruned(nodes, gone, renames)| == |kept|
    ensures forall k :: 0 <= k < |kept| ==>
      kept[k] < |nodes| && Pruned(nodes, gone, renames)[k] == Renamed(nodes[kept[k]], renames)
    ensures forall j, k :: 0 <= j < k < |kept| ==> kept[j] < kept[k]
    ensures forall i :: 0 <= i < |nodes| ==> (i in kept <==> !Gone(nodes[i], gone))
  {
    hide Renamed, Gone;
    kept := [];
    if nodes != [] {
      var last := |nodes| - 1;
      kept := PrunedKept(nodes[..last], gone, renames);
      assert forall i :: 0 <= i < last ==> nodes[..last][i] == nodes[i];
      if !Gone(nodes[last], gone) {
        kept := kept + [last];
      }
    }
  }

  lemma RenamedFirstOnly(nodes: seq<Node>, t: Tail, n: nat, i: nat)
    requires HasTail(nodes, t) && n <= |t.branches| && i < |nodes|
    ensures NodeCut(Renamed(nodes[i], RenamesAt(nodes, t, n)), nodes, t, n, i)
  {
    hide HasTail, UniqueOutputs, RenamesAt, OutName;
    var renames := RenamesAt(nodes, t, n);
    TailShape(nodes, t);
    forall k | 0 < k < |nodes[i].outputs|
      ensures nodes[i].outputs[k] !in renames
    {
      LaterOutputStays(nodes, t, n, i, k);
    }
    RenamedNodes(nodes, t, n, i);
    ConcatRenamed(nodes, t, n);
    forall j | 0 <= j < n
      ensures FirstOut(nodes, t.branches[j]) in renames
      ensures renames[FirstOut(nodes, t.branches[j])] == "output_" + Decimal(j)
    {
      BranchRenamed(nodes, t, n, j);
      OutNameIs(j);
    }
  }

  lemma OutNameIs(j: nat)
    ensures OutName(j) == "output_" + Decimal(j)
  {
  }

  lemma LaterOutputStays(nodes: seq<Node>, t: Tail, n: nat, i: nat, k: nat)
    requires HasTail(nodes, t) && n <= |t.branches| && i < |nodes| && 0 < k < |nodes[i].outputs|
    ensures nodes[i].outputs[k] !in RenamesAt(nodes, t, n)
  {
    if nodes[i].outputs[k] in RenamesAt(nodes, t, n) {
      RenameOrigin(nodes, t, n, nodes[i].outputs[k]);
    }
  }

  lemma StageFrom(nodes: seq<Node>, t: Tail, n: nat, concatGone: bool, gone: set<string>, renames: map<string, string>)
    requires n <= |t.reshapes| && n <= |t.branches|
    requires forall i: nat :: i < |nodes| ==>
      && (Gone(nodes[i], gone) <==> i == t.transpose || (concatGone && i == t.concat) || i in t.reshapes[..n])
      && NodeCut(Renamed(nodes[i], renames), nodes, t, n, i)
    ensures Stage(nodes, t, n, concatGone, Pruned(nodes, gone, renames))
  {
    hide NodeCut, Gone, Renamed, Pruned;
    var kept := PrunedKept(nodes, gone, renames);
    assert Remain(kept, nodes, t, n, concatGone);
  }

  lemma StageIs(nodes: seq<Node>, t: Tail, n: nat)
    requires HasTail(nodes, t) && n <= |t.branches|
    ensures Stage(nodes, t, n, false, Pruned(nodes, GoneAt(nodes, t, n), RenamesAt(nodes, t, n)))
  {
    hide HasTail, UniqueOutputs, NodeCut, Gone, Renamed, GoneAt, RenamesAt, Pruned, Stage;
    TailShape(nodes, t);
    forall i: nat | i < |nodes|
      ensures Gone(nodes[i], GoneAt(nodes, t, n)) <==> i == t.transpose || i in t.reshapes[..n]
      ensures NodeCut(Renamed(nodes[i], RenamesAt(nodes, t, n)), nodes, t, n, i)
    {
      GoneIs(nodes, t, n, i);
      RenamedFirstOnly(nodes, t, n, i);
    }
    StageFrom(nodes, t, n, false, GoneAt(nodes, t, n), RenamesAt(nodes, t, n));
  }

  lemma FinalStage(nodes: seq<Node>, t: Tail)
    requires HasTail(nodes, t)
    ensures Stage(nodes, t, |t.branches|, true, PrunedGraph(nodes, t))
  {
    hide HasTail, UniqueOutputs, NodeCut, Gone, Renamed, CutGone, CutRenames, Pruned, Stage;
    TailShape(nodes, t);
    var n := |t.branches|;
    forall i: nat | i < |nodes|
      ensures Gone(nodes[i], CutGone(nodes, t)) <==> i == t.transpose || i == t.concat || i in t.reshapes[..n]
      ensures NodeCut(Renamed(nodes[i], CutRenames(nodes, t)), nodes, t, n, i)
    {
      FinallyGone(nodes, t, i);
      RenamedFirstOnly(nodes, t, n, i);
      assert CutRenames(nodes, t) == RenamesAt(nodes, t, n) by {
        CutRenamesAre(nodes, t);
      }
    }
    StageFrom(nodes, t, n, true, CutGone(nodes, t), CutRenames(nodes, t));
  }

  lemma CutRenamesAre(nodes: seq<Node>, t: Tail)
    requires HasTail(nodes, t)
    ensures CutRenames(nodes, t) == RenamesAt(nodes, t, |t.branches|)
  {
  }

  lemma FinallyGone(nodes: seq<Node>, t: Tail, i: nat)
    requires HasTail(nodes, t) && i < |nodes|
    ensures Gone(nodes[i], CutGone(nodes, t)) <==>
      i == t.transpose || i == t.concat || i in t.reshapes[..|t.branches|]
  {
    hide HasTail, UniqueOutputs, GoneAt;
    TailShape(nodes, t);
    GoneIs(nodes, t, |t.branches|, i);
    SameOutput(nodes, i, t.concat);
  }

  lemma ReshapeFound(nodes: seq<Node>, t: Tail, n: nat)
    requires HasTail(nodes, t) && n < |t.branches|
    ensures
      var list := Pruned(nodes, GoneAt(nodes, t, n), RenamesAt(nodes, t, n));
      var r := t.reshapes[n];
      var found := FindProducer(list, FirstOut(nodes, r));
      && found.Some? && found.value < |list| && list[found.value] == nodes[r]
      && nodes[r].inputs != [] && nodes[r].inputs[0] == FirstOut(nodes, t.branches[n])
  {
    var r := t.reshapes[n];
    NotYetCut(nodes, t, n);
    PlainProducer(nodes, t, n, r);
    FindInPruned(nodes, GoneAt(nodes, t, n), RenamesAt(nodes, t, n), r, FirstOut(nodes, r));
    RenamedUnchanged(nodes[r], RenamesAt(nodes, t, n));
  }

  lemma BranchFound(nodes: seq<Node>, t: Tail, n: nat)
    requires HasTail(nodes, t) && n < |t.branches|
    ensures
      var gone := GoneAt(nodes, t, n);
      var list := Pruned(nodes, gone, RenamesAt(nodes, t, n));
      var found := FindProducer(list, FirstOut(nodes, t.branches[n]));
      && found.Some? && found.value < |list| && list[found.value].outputs != []
      && var node := list[found.value];
      list[found.value := node.(outputs := node.outputs[0 := OutName(n)])]
        == Pruned(nodes, gone, RenamesAt(nodes, t, n + 1))
  {
    var b := t.branches[n];
    NotYetCut(nodes, t, n);
    PlainProducer(nodes, t, n, b);
    FindInPruned(nodes, GoneAt(nodes, t, n), RenamesAt(nodes, t, n), b, FirstOut(nodes, b));
    OverwriteIsRenaming(nodes, GoneAt(nodes, t, n), RenamesAt(nodes, t, n), b, OutName(n));
  }

  lemma ReshapeRemoved(nodes: seq<Node>, t: Tail, n: nat)
    requires HasTail(nodes, t) && n < |t.branches|
    ensures RemoveFirst(Pruned(nodes, GoneAt(nodes, t, n), RenamesAt(nodes, t, n + 1)), nodes[t.reshapes[n]])
         == Pruned(nodes, GoneAt(nodes, t, n + 1), RenamesAt(nodes, t, n + 1))
  {
    hide HasTail, UniqueOutputs, GoneAt, RenamesAt, Pruned, RemoveFirst, Renamed, Gone;
    TailShape(nodes, t);
    GoneStep(nodes, t, n);
    ReshapeStillPlain(nodes, t, n);
    RemovalIsGone(nodes, GoneAt(nodes, t, n), RenamesAt(nodes, t, n + 1), t.reshapes[n]);
  }

  lemma GoneStep(nodes: seq<Node>, t: Tail, n: nat)
    requires HasTail(nodes, t) && n < |t.reshapes|
    ensures GoneAt(nodes, t, n + 1) == GoneAt(nodes, t, n) + {FirstOut(nodes, t.reshapes[n])}
  {
  }

  /** The first input that is not an initializer. */
  function TrueInput(inputs: seq<string>, initializers: set<string>): Option<string> {
    if inputs == [] then None
    else if inputs[0] !in initializers then Some(inputs[0])
    else TrueInput(inputs[1..], initializers)
  }

  class Model {
    var node: seq<Node>
    var outputs: seq<string>
    const initializers: set<string>

    constructor (node: seq<Node>, outputs: seq<string>, initializers: set<string>)
      ensures this.node == node && this.outputs == outputs && this.initializers == initializers
    {
      this.node, this.outputs, this.initializers := node, outputs, initializers;
    }

    /** Removes the last node of the graph: the node that feeds it takes over its output name. */
    method RemoveLastNode(ghost nodes: seq<Node>, ghost t: Tail)
      requires node == nodes && HasTail(nodes, t) && OUTPUT in outputs
      requires FirstOut(nodes, t.concat) !in initializers
      modifies this`node
      ensures node == Pruned(nodes, GoneAt(nodes, t, 0), RenamesAt(nodes, t, 0))
      ensures Stage(nodes, t, 0, false, node)
    {
      StageIs(nodes, t, 0);
      hide Stage;
      FindInWhole(nodes, t.transpose);
      var last := node[FindProducer(node, OUTPUT).value];
      var source := TrueInput(last.inputs, initializers).value;
      FindInWhole(nodes, t.concat);
      var p := FindProducer(node, source).value;
      ConcatTakesOver(nodes, t);
      node := node[p := node[p].(outputs := node[p].outputs[0 := last.outputs[0]])];
      TransposeRemoved(nodes, t);
      node := RemoveFirst(node, last);
    }

    /** Cuts one branch: its last node feeds a new graph output, its Reshape is removed. */
    method CutBranch(ghost nodes: seq<Node>, ghost t: Tail, n: nat, input: string)
      requires HasTail(nodes, t) && n < |t.branches| && input == FirstOut(nodes, t.reshapes[n])
      requires node == Pruned(nodes, GoneAt(nodes, t, n), RenamesAt(nodes, t, n))
      modifies this
      ensures node == Pruned(nodes, GoneAt(nodes, t, n + 1), RenamesAt(nodes, t, n + 1))
      ensures Stage(nodes, t, n + 1, false, node)
      ensures outputs == old(outputs) + ["output_" + Decimal(n)]
    {
      hide HasTail, UniqueOutputs, Stage, GoneAt, RenamesAt, Pruned, FindProducer, RemoveFirst;
      StageIs(nodes, t, n + 1);
      ReshapeFound(nodes, t, n);
      BranchFound(nodes, t, n);
      ReshapeRemoved(nodes, t, n);
      var reshape := node[FindProducer(node, input).value];
      var p := FindProducer(node, reshape.inputs[0]).value;
      outputs := outputs + [OutName(n)];
      node := node[p := node[p].(outputs := node[p].outputs[0 := OutName(n)])];
      node := RemoveFirst(node, reshape);
    }

    method CutBranches(ghost nodes: seq<Node>, ghost t: Tail, inputs: seq<string>)
      requires HasTail(nodes, t) && |inputs| == |t.branches|
      requires forall i :: 0 <= i < |inputs| ==> inputs[i] == FirstOut(nodes, t.reshapes[i])
      requires node == Pruned(nodes, GoneAt(nodes, t, 0), RenamesAt(nodes, t, 0))
      modifies this
      ensures node == Pruned(nodes, GoneAt(nodes, t, |inputs|), RenamesAt(nodes, t, |inputs|))
      ensures Stage(nodes, t, |inputs|, false, node)
      ensures outputs == old(outputs) + OutNames(|inputs|)
    {
      StageIs(nodes, t, |inputs|);
      hide Stage;
      for i := 0 to |inputs|
        invariant node == Pruned(nodes, GoneAt(nodes, t, i), RenamesAt(nodes, t, i))
        invariant outputs == old(outputs) + OutNames(i)
      {
        CutBranch(nodes, t, i, inputs[i]);
        AppendAssociates(old(outputs), OutNames(i), [OutName(i)]);
      }
    }

    /** The whole cut: last node, branches in the order of the Concat's inputs, the Concat, the old output. */
    method PruneTail(ghost t: Tail)
      requires HasTail(node, t) && OUTPUT in outputs && FirstOut(node, t.concat) !in initializers
      modifies this
      ensures node == PrunedGraph(old(node), t)
      ensures Stage(old(node), t, |t.branches|, true, node)
      ensures outputs == DeclaredOutputs(old(outputs), |t.branches|)
    {
      ghost var nodes := node;
      FinalStage(nodes, t);
      hide Stage;
      RemoveLastNode(nodes, t);
      ConcatFound(nodes, t);
      var concat := node[FindProducer(node, OUTPUT).value];
      CutBranches(nodes, t, concat.inputs);
      ConcatRemoved(nodes, t);
      node := RemoveFirst(node, concat);
      WithoutAppend(old(outputs), OutNames(|t.branches|), OUTPUT);
      WithoutOutNames(|t.branches|);
      outputs := Without(outputs, OUTPUT);
    }
  }

  lemma ConcatFound(nodes: seq<Node>, t: Tail)
    requires HasTail(nodes, t)
    ensures
      var list := Pruned(nodes, GoneAt(nodes, t, 0), RenamesAt(nodes, t, 0));
      && FindProducer(list, OUTPUT).Some? && FindProducer(list, OUTPUT).value < |list|
      && list[FindProducer(list, OUTPUT).value] == Renamed(nodes[t.concat], RenamesAt(nodes, t, 0))
  {
    ConcatProduces(nodes, t, 0);
    FindInPruned(nodes, GoneAt(nodes, t, 0), RenamesAt(nodes, t, 0), t.concat, OUTPUT);
  }

  function OutNames(n: nat): (names: seq<string>)
    ensures |names| == n
  {
    if n == 0 then [] else OutNames(n - 1) + [OutName(n - 1)]
  }

  function Without(names: seq<string>, name: string): seq<string> {
    if names == [] then []
    else Without(names[..|names| - 1], name) + if names[|names| - 1] == name then [] else [names[|names| - 1]]
  }

  /** The graph outputs after the cut: the others stay declared, and one is added for each branch. */
  function DeclaredOutputs(outputs: seq<string>, n: nat): seq<string> {
    Without(outputs, OUTPUT) + OutNames(n)
  }

  lemma {:induction false} WithoutAbsent(names: seq<string>, name: string)
    requires name !in names
    ensures Without(names, name) == names
  {
    if names != [] {
      var before, last := names[..|names| - 1], names[|names| - 1];
      assert before + [last] == names;
      WithoutAbsent(before, name);
    }
  }

  /** The old output goes, the others stay in their order, and one new output follows for each branch. */
  lemma DeclaredOutputsAre(before: seq<string>, after: seq<string>, n: nat)
    requires "output" !in before && "output" !in after
    ensures
      var outs := DeclaredOutputs(before + ["output"] + after, n);
      && |outs| == |before| + |after| + n && outs[..|before| + |after|] == before + after
      && forall j :: 0 <= j < n ==> outs[|before| + |after| + j] == "output_" + Decimal(j)
  {
    hide Without, OutNames, Decimal, OutName;
    WithoutOnly(before, after);
    forall j | 0 <= j < n
      ensures OutNames(n)[j] == "output_" + Decimal(j)
    {
      OutNamesAt(n, j);
    }
  }

  lemma WithoutOnly(before: seq<string>, after: seq<string>)
    requires "output" !in before && "output" !in after
    ensures Without(before + ["output"] + after, OUTPUT) == before + after
  {
    WithoutAppend(before + ["output"], after, OUTPUT);
    WithoutAppend(before, ["output"], OUTPUT);
    WithoutAbsent(before, OUTPUT);
    WithoutAbsent(after, OUTPUT);
    assert Without(["output"], OUTPUT) == [] by {
      assert ["output"][..0] == [];
    }
    hide Without;
    assert before + [] == before;
  }

  /** If there are no others, the new outputs are all of them. */
  lemma DeclaredOfOnlyOutput(n: nat)
    ensures DeclaredOutputs([OUTPUT], n) == OutNames(n)
  {
    assert [OUTPUT][..0] == [];
    assert Without([OUTPUT], OUTPUT) == [];
  }

  lemma {:induction false} OutNamesAt(n: nat, j: nat)
    requires j < n
    ensures OutNames(n)[j] == OutName(j) == "output_" + Decimal(j)
  {
    if j < n - 1 {
      OutNamesAt(n - 1, j);
    }
  }

  lemma {:induction false} WithoutAppend(a: seq<string>, b: seq<string>, name: string)
    ensures Without(a + b, name) == Without(a, name) + Without(b, name)
  {
    if b == [] {
      assert a + b == a;
    } else {
      assert (a + b)[..|a + b| - 1] == a + b[..|b| - 1];
      WithoutAppend(a, b[..|b| - 1], name);
    }
  }

  lemma {:induction false} WithoutOutNames(n: nat)
    ensures Without(OutNames(n), OUTPUT) == OutNames(n)
  {
    if n > 0 {
      WithoutOutNames(n - 1);
      OutNamesDistinct(n - 1, n - 1);
      assert OutNames(n)[..n - 1] == OutNames(n - 1);
    }
  }

  /** All names that are gone after the cut, and all renamings. */
  ghost function CutGone(nodes: seq<Node>, t: Tail): set<string>
    requires HasTail(nodes, t)
  {
    GoneAt(nodes, t, |t.reshapes|) + {FirstOut(nodes, t.concat)}
  }

  ghost function CutRenames(nodes: seq<Node>, t: Tail): map<string, string>
    requires HasTail(nodes, t)
  {
    RenamesAt(nodes, t, |t.branches|)
  }

  /** The graph after the cut. */
  ghost function PrunedGraph(nodes: seq<Node>, t: Tail): seq<Node>
    requires HasTail(nodes, t)
  {
    Pruned(nodes, CutGone(nodes, t), CutRenames(nodes, t))
  }

  lemma OnlyProducerAtFirst(nodes: seq<Node>, i: nat)
    requires UniqueOutputs(nodes) && i < |nodes|
    ensures OnlyProducer(nodes, {}, map[], i, FirstOut(nodes, i))
  {
  }

  lemma FindInWhole(nodes: seq<Node>, i: nat)
    requires UniqueOutputs(nodes) && i < |nodes|
    ensures FindProducer(nodes, FirstOut(nodes, i)) == Some(i)
  {
    OnlyProducerAtFirst(nodes, i);
    FindInPruned(nodes, {}, map[], i, FirstOut(nodes, i));
    PrunedNothing(nodes);
    PrunedNothing(nodes[..i]);
  }

  lemma ConcatTakesOver(nodes: seq<Node>, t: Tail)
    requires HasTail(nodes, t)
    ensures nodes[t.concat := nodes[t.concat].(outputs := nodes[t.concat].outputs[0 := OUTPUT])]
         == Pruned(nodes, {}, RenamesAt(nodes, t, 0))
  {
    OnlyProducerAtFirst(nodes, t.concat);
    OverwriteIsRenaming(nodes, {}, map[], t.concat, OUTPUT);
    PrunedNothing(nodes);
    PrunedNothing(nodes[..t.concat]);
  }

  lemma TransposeRemoved(nodes: seq<Node>, t: Tail)
    requires HasTail(nodes, t)
    ensures RemoveFirst(Pruned(nodes, {}, RenamesAt(nodes, t, 0)), nodes[t.transpose])
         == Pruned(nodes, GoneAt(nodes, t, 0), RenamesAt(nodes, t, 0))
  {
    SameOutput(nodes, t.transpose, t.concat);
    RenamedUnchanged(nodes[t.transpose], RenamesAt(nodes, t, 0));
    TransposeNotBefore(nodes, t);
    RemovalIsGone(nodes, {}, RenamesAt(nodes, t, 0), t.transpose);
    assert {} + {OUTPUT} == {OUTPUT};
  }

  lemma ConcatRemoved(nodes: seq<Node>, t: Tail)
    requires HasTail(nodes, t)
    ensures
      var n := |t.branches|;
      RemoveFirst(Pruned(nodes, GoneAt(nodes, t, n), RenamesAt(nodes, t, n)),
                  Renamed(nodes[t.concat], RenamesAt(nodes, t, 0)))
        == PrunedGraph(nodes, t)
  {
    var n := |t.branches|;
    ConcatProduces(nodes, t, n);
    NotBefore(nodes, GoneAt(nodes, t, n), RenamesAt(nodes, t, n), t.concat, OUTPUT);
    RemovalIsGone(nodes, GoneAt(nodes, t, n), RenamesAt(nodes, t, n), t.concat);
    ConcatRenamedOnce(nodes, t, n);
  }

  lemma NotYetCut(nodes: seq<Node>, t: Tail, n: nat)
    requires HasTail(nodes, t) && n < |t.branches|
    ensures t.reshapes[n] !in t.reshapes[..n] && t.branches[n] !in t.reshapes
    ensures t.branches[n] != t.transpose && t.branches[n] != t.concat
    ensures FirstOut(nodes, t.reshapes[n]) !in RenamesAt(nodes, t, n)
    ensures FirstOut(nodes, t.branches[n]) !in RenamesAt(nodes, t, n)
  {
    assert !HeadNode(t, t.branches[n]);
    RenamedNodes(nodes, t, n, t.reshapes[n]);
    RenamedNodes(nodes, t, n, t.branches[n]);
    forall j | 0 <= j < n
      ensures t.branches[j] != t.reshapes[n]
    {
      assert !HeadNode(t, t.branches[j]) && t.reshapes[n] in t.reshapes;
    }
  }

  /** Renaming the branch does not touch its Reshape, which is still the only one of its kind. */
  lemma ReshapeStillPlain(nodes: seq<Node>, t: Tail, n: nat)
    requires HasTail(nodes, t) && n < |t.branches|
    ensures
      var r, renames := t.reshapes[n], RenamesAt(nodes, t, n + 1);
      && !Gone(nodes[r], GoneAt(nodes, t, n))
      && Renamed(nodes[r], renames) == nodes[r]
      && Renamed(nodes[r], renames) !in Pruned(nodes[..r], GoneAt(nodes, t, n), renames)
  {
    var r, renames, gone := t.reshapes[n], RenamesAt(nodes, t, n + 1), GoneAt(nodes, t, n);
    NotYetCut(nodes, t, n);
    GoneIs(nodes, t, n, r);
    assert t.reshapes[n] in t.reshapes && !HeadNode(t, t.branches[n]);
    SameOutput(nodes, r, t.branches[n]);
    RenamedUnchanged(nodes[r], renames);
    forall j, k | 0 <= j < |nodes| && j != r && !Gone(nodes[j], gone) && 0 <= k < |nodes[j].outputs|
      ensures Rename(renames, nodes[j].outputs[k]) != FirstOut(nodes, r)
    {
      if nodes[j].outputs[k] in renames {
        RenamedIsNew(nodes, t, n + 1, nodes[j].outputs[k], r, 0);
      }
    }
    NotBefore(nodes, gone, renames, r, FirstOut(nodes, r));
  }

  /** The Concat node found at the start is, unchanged, the one removed at the end. */
  lemma ConcatRenamedOnce(nodes: seq<Node>, t: Tail, n: nat)
    requires HasTail(nodes, t) && n <= |t.branches|
    ensures Renamed(nodes[t.concat], RenamesAt(nodes, t, n)) == Renamed(nodes[t.concat], RenamesAt(nodes, t, 0))
  {
    RenamedNodes(nodes, t, n, t.concat);
    RenamedNodes(nodes, t, 0, t.concat);
    RenamesTo(nodes, t, n, FirstOut(nodes, t.concat));
    RenamesTo(nodes, t, 0, FirstOut(nodes, t.concat));
    assert Renamed(nodes[t.concat], RenamesAt(nodes, t, n)).outputs == [OUTPUT];
    assert Renamed(nodes[t.concat], RenamesAt(nodes, t, 0)).outputs == [OUTPUT];
  }
}
