/**
 * The interpreter that routes the accelerator's output through the post-processing plugins: a list of
 * slots with values, and a dictionary from the names of live tensors to slots.
 */
module Postprocess {
  import opened Wrappers

  datatype Plugin = Plugin(kernel: string, params: string, inputs: seq<string>, outputs: seq<string>)
  {
    predicate PassThrough() { kernel == "pass_through" }

    predicate Splits() { |outputs| > 1 }
  }

  /**
   * The transforms, which are not part of the repository. `apply` is None where a transform raises an
   * error; `parts` lists what iterating over a result yields.
   */
  datatype Kernels<!V> = Kernels(apply: (string, string, V) -> Option<V>, parts: V -> seq<V>)

  datatype State<V> = State(started: bool, slots: seq<V>, nodes: map<string, nat>)

  function Numbered(names: seq<string>): map<string, nat> {
    if names == [] then map[] else Numbered(names[..|names| - 1])[names[|names| - 1] := |names| - 1]
  }

  /** The slot a plugin works on, if its input is known. The first plugin takes the accelerator's output. */
  function SlotFor<V>(s: State<V>, p: Plugin): Option<nat> {
    if !s.started then Some(0)
    else if p.inputs == [] || p.inputs[0] !in s.nodes || s.nodes[p.inputs[0]] >= |s.slots| then None
    else Some(s.nodes[p.inputs[0]])
  }

  function InputOf<V>(s: State<V>, p: Plugin, mla: V): V
    requires SlotFor(s, p).Some?
  {
    if s.started then s.slots[SlotFor(s, p).value] else mla
  }

  function NodesWithoutInput<V>(s: State<V>, p: Plugin): map<string, nat> {
    if s.started && p.inputs != [] then s.nodes - {p.inputs[0]} else s.nodes
  }

  /** One round of the loop; None stands for an error raised. */
  function Step<V>(s: State<V>, p: Plugin, mla: V, k: Kernels<V>): Option<State<V>> {
    if p.PassThrough() then Some(s)
    else if SlotFor(s, p).None? then None else
    var slot, out := SlotFor(s, p).value, k.apply(p.kernel, p.params, InputOf(s, p, mla));
    if out.None? || |p.outputs| != |k.parts(out.value)| then None
    else if p.Splits() then
      if p.kernel != "unpack_transform" then None
      else Some(State(true, k.parts(out.value), NodesWithoutInput(s, p) + Numbered(p.outputs)))
    else if p.outputs == [] || slot >= |s.slots| then None
    else Some(State(true, s.slots[slot := out.value], NodesWithoutInput(s, p)[p.outputs[0] := slot]))
  }

  function Start<V>(zero: V): State<V> { State(false, [zero], map[]) }

  function Run<V>(plan: seq<Plugin>, zero: V, mla: V, k: Kernels<V>): Option<State<V>> {
    if plan == [] then Some(Start(zero)) else
    var before := Run(plan[..|plan| - 1], zero, mla, k);
    if before.None? then None else Step(before.value, plan[|plan| - 1], mla, k)
  }

  lemma {:induction false} RunOfPrefix<V>(plan: seq<Plugin>, n: nat, zero: V, mla: V, k: Kernels<V>)
    requires n <= |plan| && Run(plan[..n], zero, mla, k).None?
    ensures Run(plan, zero, mla, k).None?
  {
    if n < |plan| {
      assert plan[..|plan| - 1][..n] == plan[..n];
      RunOfPrefix(plan[..|plan| - 1], n, zero, mla, k);
    } else {
      assert plan[..n] == plan;
    }
  }

  lemma RunOneMore<V>(plan: seq<Plugin>, n: nat, zero: V, mla: V, k: Kernels<V>)
    requires n < |plan| && Run(plan[..n], zero, mla, k).Some?
    ensures Run(plan[..n + 1], zero, mla, k) == Step(Run(plan[..n], zero, mla, k).value, plan[n], mla, k)
  {
    assert plan[..n + 1][..n] == plan[..n];
  }

  /** A single slot is returned without its list. */
  datatype Output<V> = Single(value: V) | Several(values: seq<V>)

  function OutputOf<V>(slots: seq<V>): (o: Output<V>)
    ensures o.Single? <==> |slots| == 1
    ensures (if o.Single? then [o.value] else o.values) == slots
  {
    if |slots| == 1 then Single(slots[0]) else Several(slots)
  }

  /** Links the names of a multi-output plugin to its slots. */
  method NumberOutputs(kept: map<string, nat>, names: seq<string>) returns (nodes: map<string, nat>)
    ensures nodes == kept + Numbered(names)
  {
    nodes := kept;
    for i := 0 to |names|
      invariant nodes == kept + Numbered(names[..i])
    {
      assert names[..i + 1][..i] == names[..i];
      nodes := nodes[names[i] := i];
    }
    assert names[..|names|] == names;
  }

  /** The interpreter itself. `zero` is what the only slot holds before the first plugin. */
  method PostprocessOutput<V>(plan: seq<Plugin>, zero: V, mla: V, k: Kernels<V>) returns (output: Option<Output<V>>)
    ensures output == match Run(plan, zero, mla, k) case Some(s) => Some(OutputOf(s.slots)) case None => None
    ensures output.None? <==> Run(plan, zero, mla, k).None?
    ensures output.Some? && output.value.Single? ==> Run(plan, zero, mla, k).value.slots == [output.value.value]
    ensures output.Some? && output.value.Several? ==>
      Run(plan, zero, mla, k).value.slots == output.value.values && |output.value.values| != 1
  {
    var slots, idx, nodes: map<string, nat> := [zero], 0, map[];
    var processingMlaOutput, inputFrame := true, mla;
    assert Run(plan[..0], zero, mla, k) == Some(Start(zero));
    hide Run;
    for n := 0 to |plan|
      invariant Run(plan[..n], zero, mla, k) == Some(State(!processingMlaOutput, slots, nodes))
      invariant processingMlaOutput ==> idx == 0 && inputFrame == mla && nodes == map[]
    {
      var p := plan[n];
      RunOneMore(plan, n, zero, mla, k);
      if p.PassThrough() {
        continue;
      }
      if processingMlaOutput {
        processingMlaOutput := false;
      } else {
        if p.inputs == [] || p.inputs[0] !in nodes || nodes[p.inputs[0]] >= |slots| {
          RunOfPrefix(plan, n + 1, zero, mla, k);
          return None;
        }
        idx := nodes[p.inputs[0]];
        nodes := nodes - {p.inputs[0]};
        inputFrame := slots[idx];
      }
      var out := k.apply(p.kernel, p.params, inputFrame);
      if out.None? || |p.outputs| != |k.parts(out.value)| {
        RunOfPrefix(plan, n + 1, zero, mla, k);
        return None;
      }
      if p.Splits() {
        if p.kernel != "unpack_transform" {
          RunOfPrefix(plan, n + 1, zero, mla, k);
          return None;
        }
        slots := k.parts(out.value);
        nodes := NumberOutputs(nodes, p.outputs);
      } else {
        if p.outputs == [] || idx >= |slots| {
          RunOfPrefix(plan, n + 1, zero, mla, k);
          return None;
        }
        slots := slots[idx := out.value];
        nodes := nodes[p.outputs[0] := idx];
      }
    }
    assert plan[..|plan|] == plan;
    output := Some(if |slots| == 1 then Single(slots[0]) else Several(slots));
  }
}
