/** What a post-processing plan means as a dataflow graph, and that the interpreter computes it. */
module PlanMeaning {
  import opened Wrappers
  import opened Postprocess
  import opened Seqs

  /** The tensor a name stands for, and the position its chain has in the output list. */
  datatype Tensor<V> = Tensor(value: V, position: nat)

  type Env<V> = map<string, Tensor<V>>

  /** The graph equation of a plugin: its outputs are its kernel's results on its input. */
  ghost predicate Equation<V>(p: Plugin, first: bool, env: Env<V>, mla: V, k: Kernels<V>) {
    && (first || (p.inputs != [] && p.inputs[0] in env))
    && var input := if first then Tensor(mla, 0) else env[p.inputs[0]];
    var out := k.apply(p.kernel, p.params, input.value);
    && out.Some? && |p.outputs| == |k.parts(out.value)| && p.outputs != []
    && if |p.outputs| > 1 then
         forall i :: 0 <= i < |p.outputs| ==>
           p.outputs[i] in env && env[p.outputs[i]] == Tensor(k.parts(out.value)[i], i)
       else p.outputs[0] in env && env[p.outputs[0]] == Tensor(out.value, input.position)
  }

  /** `env` is a meaning of the plan: it solves the equations of all its plugins. */
  ghost predicate Meaning<V>(plan: seq<Plugin>, env: Env<V>, mla: V, k: Kernels<V>) {
    forall n :: 0 <= n < |plan| ==> Equation(plan[n], n == 0, env, mla, k)
  }

  ghost function Produced(plan: seq<Plugin>): set<string> {
    set n, i | 0 <= n < |plan| && 0 <= i < |plan[n].outputs| :: plan[n].outputs[i]
  }

  ghost function Consumed(plan: seq<Plugin>): set<string> {
    set n | 0 < n < |plan| && plan[n].inputs != [] :: plan[n].inputs[0]
  }

  ghost predicate Distinct(names: seq<string>) {
    forall i, j :: 0 <= i < j < |names| ==> names[i] != names[j]
  }

  /** No tensor name is produced twice. */
  ghost predicate FreshNames(plan: seq<Plugin>) {
    && (forall n :: 0 <= n < |plan| ==> Distinct(plan[n].outputs))
    && (forall m, n, i, j :: 0 <= m < n < |plan| && 0 <= i < |plan[m].outputs| && 0 <= j < |plan[n].outputs| ==>
          plan[m].outputs[i] != plan[n].outputs[j])
  }

  /** Some name has no slot of its own: its slot does not exist, or another name has it too. */
  ghost predicate Crowded<V>(s: State<V>) {
    || (exists a :: a in s.nodes && s.nodes[a] >= |s.slots|)
    || (exists a, b :: a in s.nodes && b in s.nodes && a != b && s.nodes[a] == s.nodes[b])
  }

  ghost predicate Named<V>(s: State<V>, slot: nat) {
    exists a :: a in s.nodes && s.nodes[a] == slot
  }

  /** The dictionary is a bijection from the live names to the slots. */
  ghost predicate Bijection<V>(s: State<V>) {
    !Crowded(s) && forall i :: 0 <= i < |s.slots| ==> Named(s, i)
  }

  /** It is one, and each slot holds its name's tensor. */
  ghost predicate Represents<V>(s: State<V>, env: Env<V>) {
    && Bijection(s)
    && forall a :: a in s.nodes ==>
         s.nodes[a] < |s.slots| && a in env && env[a] == Tensor(s.slots[s.nodes[a]], s.nodes[a])
  }

  predicate Splitless(plan: seq<Plugin>) {
    forall n :: 0 <= n < |plan| ==> |plan[n].outputs| <= 1
  }

  /** A test on the plan alone: at most one plugin has more than one output. */
  predicate AtMostOneSplit(plan: seq<Plugin>) {
    forall m, n :: 0 <= m < n < |plan| && |plan[m].outputs| > 1 ==> |plan[n].outputs| <= 1
  }

  ghost predicate NoPassThrough(plan: seq<Plugin>) {
    forall n :: 0 <= n < |plan| ==> plan[n].kernel != "pass_through"
  }

  // One step

  lemma {:induction false} NumberedIs(names: seq<string>)
    requires Distinct(names)
    ensures Numbered(names).Keys == set i | 0 <= i < |names| :: names[i]
    ensures forall i :: 0 <= i < |names| ==> names[i] in Numbered(names) && Numbered(names)[names[i]] == i
  {
    if names != [] {
      var last := |names| - 1;
      NumberedIs(names[..last]);
      assert forall i :: 0 <= i < last ==> names[..last][i] == names[i];
    }
  }

  ghost function Added<V>(p: Plugin, input: Tensor<V>, k: Kernels<V>): Env<V>
    requires k.apply(p.kernel, p.params, input.value).Some?
    requires |p.outputs| == |k.parts(k.apply(p.kernel, p.params, input.value).value)|
  {
    var out := k.apply(p.kernel, p.params, input.value).value;
    if p.Splits() then map a | a in Numbered(p.outputs) && Numbered(p.outputs)[a] < |k.parts(out)| ::
      Tensor(k.parts(out)[Numbered(p.outputs)[a]], Numbered(p.outputs)[a])
    else if p.outputs == [] then map[]
    else map[p.outputs[0] := Tensor(out, input.position)]
  }

  /** The meaning with the names that a step adds. */
  ghost function NextEnv<V>(s: State<V>, p: Plugin, env: Env<V>, mla: V, k: Kernels<V>): Env<V>
    requires Step(s, p, mla, k).Some? && !p.PassThrough()
  {
    env + Added(p, InputTensor(s, p, mla), k)
  }

  ghost function InputTensor<V>(s: State<V>, p: Plugin, mla: V): Tensor<V>
    requires SlotFor(s, p).Some?
  {
    Tensor(InputOf(s, p, mla), SlotFor(s, p).value)
  }

  ghost predicate NewOutputs(p: Plugin, names: set<string>) {
    Distinct(p.outputs) && forall i :: 0 <= i < |p.outputs| ==> p.outputs[i] !in names
  }

  ghost predicate FreshOutputs<V>(p: Plugin, env: Env<V>) {
    NewOutputs(p, env.Keys)
  }

  /** With a slot for each name before a single-output step, each name has one after it. */
  lemma SingleStepSpreads<V>(s: State<V>, p: Plugin, mla: V, k: Kernels<V>)
    requires Step(s, p, mla, k).Some? && !p.PassThrough() && !p.Splits()
    requires !Crowded(s) && (s.started || s.nodes == map[])
    ensures !Crowded(Step(s, p, mla, k).value)
  {
  }

  /** A step from a state that represents a meaning; the started state has a live name in each slot. */
  lemma SingleStep<V>(s: State<V>, p: Plugin, env: Env<V>, mla: V, k: Kernels<V>)
    requires Step(s, p, mla, k).Some? && !p.PassThrough() && !p.Splits()
    requires if s.started then Represents(s, env) else |s.slots| == 1 && s.nodes == map[] && env == map[]
    requires FreshOutputs(p, env)
    ensures Represents(Step(s, p, mla, k).value, NextEnv(s, p, env, mla, k))
  {
    var s' := Step(s, p, mla, k).value;
    var slot := SlotFor(s, p).value;
    SingleStepSpreads(s, p, mla, k);
    forall i | 0 <= i < |s'.slots|
      ensures Named(s', i)
    {
      if i == slot {
        assert s'.nodes[p.outputs[0]] == i;
      } else {
        assert Named(s, i);
        var a :| a in s.nodes && s.nodes[a] == i;
        assert a in s'.nodes && s'.nodes[a] == i;
      }
    }
  }

  /** A multi-output step keeps the bijection exactly when its input was the only live name. */
  lemma SplitStep<V>(s: State<V>, p: Plugin, env: Env<V>, mla: V, k: Kernels<V>)
    requires Step(s, p, mla, k).Some? && !p.PassThrough() && p.Splits()
    requires if s.started then Represents(s, env) else |s.slots| == 1 && s.nodes == map[] && env == map[]
    requires FreshOutputs(p, env)
    ensures Represents(Step(s, p, mla, k).value, NextEnv(s, p, env, mla, k))
      <==> NodesWithoutInput(s, p) == map[]
  {
    if NodesWithoutInput(s, p) == map[] {
      SplitOnlyName(s, p, env, mla, k);
    } else {
      SplitOneOfMany(s, p, mla, k);
    }
  }

  lemma SplitOnlyName<V>(s: State<V>, p: Plugin, env: Env<V>, mla: V, k: Kernels<V>)
    requires Step(s, p, mla, k).Some? && !p.PassThrough() && p.Splits() && Distinct(p.outputs)
    requires NodesWithoutInput(s, p) == map[]
    ensures Represents(Step(s, p, mla, k).value, NextEnv(s, p, env, mla, k))
  {
    hide Numbered, Distinct;
    var s' := Step(s, p, mla, k).value;
    NumberedIs(p.outputs);
    assert s'.nodes == Numbered(p.outputs);
    forall i | 0 <= i < |s'.slots|
      ensures Named(s', i)
    {
      assert s'.nodes[p.outputs[i]] == i;
    }
  }

  lemma SplitOneOfMany<V>(s: State<V>, p: Plugin, mla: V, k: Kernels<V>)
    requires Step(s, p, mla, k).Some? && !p.PassThrough() && p.Splits() && NewOutputs(p, s.nodes.Keys)
    requires NodesWithoutInput(s, p) != map[]
    ensures Crowded(Step(s, p, mla, k).value)
  {
    var s', kept := Step(s, p, mla, k).value, NodesWithoutInput(s, p);
    NumberedIs(p.outputs);
    hide Numbered;
    var a :| a in kept.Keys;
    assert a in s'.nodes && s'.nodes[a] == kept[a] && a !in p.outputs;
    if s'.nodes[a] < |s'.slots| {
      assert s'.nodes[p.outputs[s'.nodes[a]]] == s'.nodes[a];
    }
  }

  // Whole runs

  /** Each plugin but the first reads a name that an earlier one produces. */
  ghost predicate Topological(plan: seq<Plugin>) {
    forall n :: 0 < n < |plan| ==> plan[n].inputs != [] && plan[n].inputs[0] in Produced(plan[..n])
  }

  lemma ProducedOneMore(plan: seq<Plugin>, p: Plugin)
    ensures Produced(plan + [p]) == Produced(plan) + set i | 0 <= i < |p.outputs| :: p.outputs[i]
  {
    var all := plan + [p];
    assert forall n :: 0 <= n < |plan| ==> all[n] == plan[n];
    assert all[|plan|] == p;
    forall a | a in Produced(plan)
      ensures a in Produced(all)
    {
      var n, i :| 0 <= n < |plan| && 0 <= i < |plan[n].outputs| && plan[n].outputs[i] == a;
      assert all[n].outputs[i] == a;
    }
    forall i | 0 <= i < |p.outputs|
      ensures p.outputs[i] in Produced(all)
    {
      assert all[|plan|].outputs[i] == p.outputs[i];
    }
  }

  lemma ConsumedOneMore(plan: seq<Plugin>, p: Plugin)
    ensures Consumed(plan + [p]) == Consumed(plan) + if plan != [] && p.inputs != [] then {p.inputs[0]} else {}
  {
    var all := plan + [p];
    assert forall n :: 0 <= n < |plan| ==> all[n] == plan[n];
    assert all[|plan|] == p;
    forall a | a in Consumed(plan)
      ensures a in Consumed(all)
    {
      var n :| 0 < n < |plan| && plan[n].inputs != [] && plan[n].inputs[0] == a;
      assert all[n].inputs[0] == a;
    }
  }

  lemma ConsumedIsProduced(plan: seq<Plugin>)
    requires Topological(plan)
    ensures Consumed(plan) <= Produced(plan)
  {
    forall a | a in Consumed(plan)
      ensures a in Produced(plan)
    {
      var n :| 0 < n < |plan| && plan[n].inputs != [] && plan[n].inputs[0] == a;
      var m, i :| 0 <= m < n && 0 <= i < |plan[..n][m].outputs| && plan[..n][m].outputs[i] == a;
      assert plan[m].outputs[i] == a;
    }
  }

  /** New names leave the earlier equations as they are. */
  lemma EquationExtends<V>(p: Plugin, first: bool, env: Env<V>, more: Env<V>, mla: V, k: Kernels<V>)
    requires Equation(p, first, env, mla, k) && env.Keys !! more.Keys
    ensures Equation(p, first, env + more, mla, k)
  {
  }

  /** After a step the plugin's own equation holds. */
  lemma StepEquation<V>(s: State<V>, p: Plugin, env: Env<V>, mla: V, k: Kernels<V>)
    requires Step(s, p, mla, k).Some? && !p.PassThrough() && FreshOutputs(p, env)
    requires if s.started then Represents(s, env) else |s.slots| == 1 && s.nodes == map[] && env == map[]
    ensures Equation(p, !s.started, NextEnv(s, p, env, mla, k), mla, k)
    ensures Added(p, InputTensor(s, p, mla), k).Keys == set i | 0 <= i < |p.outputs| :: p.outputs[i]
  {
    NumberedIs(p.outputs);
  }

  lemma NodesOfStep<V>(s: State<V>, p: Plugin, mla: V, k: Kernels<V>)
    requires Step(s, p, mla, k).Some? && !p.PassThrough() && Distinct(p.outputs)
    ensures Step(s, p, mla, k).value.started
    ensures s.started ==> p.inputs != [] && p.inputs[0] in s.nodes
    ensures Step(s, p, mla, k).value.nodes.Keys
         == NodesWithoutInput(s, p).Keys + set i | 0 <= i < |p.outputs| :: p.outputs[i]
  {
    NumberedIs(p.outputs);
  }

  lemma OneSlotOneName<V>(s: State<V>, p: Plugin, env: Env<V>)
    requires s.started && Represents(s, env) && |s.slots| == 1 && p.inputs != [] && p.inputs[0] in s.nodes
    ensures NodesWithoutInput(s, p) == map[]
  {
    forall a | a in s.nodes
      ensures a == p.inputs[0]
    {
      assert s.nodes[a] == 0 == s.nodes[p.inputs[0]];
    }
  }

  ghost predicate Runs<V>(plan: seq<Plugin>, zero: V, mla: V, k: Kernels<V>) {
    NoPassThrough(plan) && FreshNames(plan) && Run(plan, zero, mla, k).Some?
  }

  lemma FreshPrefix(plan: seq<Plugin>)
    requires plan != [] && FreshNames(plan)
    ensures
      var before, p := plan[..|plan| - 1], plan[|plan| - 1];
      FreshNames(before) && NewOutputs(p, Produced(before))
  {
    var before, p := plan[..|plan| - 1], plan[|plan| - 1];
    assert forall n :: 0 <= n < |before| ==> before[n] == plan[n];
  }

  lemma RunsPrefix<V>(plan: seq<Plugin>, zero: V, mla: V, k: Kernels<V>)
    requires plan != [] && Runs(plan, zero, mla, k)
    ensures Runs(plan[..|plan| - 1], zero, mla, k) && !plan[|plan| - 1].PassThrough()
    ensures Step(Run(plan[..|plan| - 1], zero, mla, k).value, plan[|plan| - 1], mla, k) == Run(plan, zero, mla, k)
  {
    var before := plan[..|plan| - 1];
    FreshPrefix(plan);
    assert forall n :: 0 <= n < |before| ==> before[n] == plan[n];
  }

  /** The state after a run: started once a plugin ran, and then it represents `env`. */
  ghost predicate StateMeans<V>(plan: seq<Plugin>, s: State<V>, env: Env<V>, mla: V, k: Kernels<V>) {
    && Topological(plan) && Meaning(plan, env, mla, k) && env.Keys == Produced(plan)
    && s.nodes.Keys == Produced(plan) - Consumed(plan)
    && (if Splitless(plan) then |s.slots| == 1 else |s.slots| > 1)
    && if plan == [] then !s.started && |s.slots| == 1 && s.nodes == map[] && env == map[]
       else s.started && Represents(s, env)
  }

  lemma MeaningOneMore<V>(plan: seq<Plugin>, p: Plugin, env: Env<V>, more: Env<V>, mla: V, k: Kernels<V>)
    requires Meaning(plan, env, mla, k) && env.Keys !! more.Keys && Equation(p, plan == [], env + more, mla, k)
    ensures Meaning(plan + [p], env + more, mla, k)
  {
    forall n | 0 <= n < |plan|
      ensures Equation(plan[n], n == 0, env + more, mla, k)
    {
      EquationExtends(plan[n], n == 0, env, more, mla, k);
    }
  }

  lemma TopologicalOneMore(plan: seq<Plugin>, p: Plugin)
    requires Topological(plan) && (plan != [] ==> p.inputs != [] && p.inputs[0] in Produced(plan))
    ensures Topological(plan + [p])
  {
    var all := plan + [p];
    forall n | 0 < n < |all|
      ensures all[n].inputs != [] && all[n].inputs[0] in Produced(all[..n])
    {
      assert all[..n] == plan[..n];
      assert n == |plan| ==> plan[..n] == plan;
    }
  }

  lemma StepRepresents<V>(s: State<V>, p: Plugin, env: Env<V>, mla: V, k: Kernels<V>)
    requires Step(s, p, mla, k).Some? && !p.PassThrough() && FreshOutputs(p, env)
    requires if s.started then Represents(s, env) else |s.slots| == 1 && s.nodes == map[] && env == map[]
    requires p.Splits() ==> |s.slots| == 1
    ensures Represents(Step(s, p, mla, k).value, NextEnv(s, p, env, mla, k))
  {
    if p.Splits() {
      if s.started {
        NodesOfStep(s, p, mla, k);
        OneSlotOneName(s, p, env);
      }
      SplitStep(s, p, env, mla, k);
    } else {
      SingleStep(s, p, env, mla, k);
    }
  }

  /** The live names after a step are again those produced and not consumed. */
  lemma LiveNames<V>(plan: seq<Plugin>, s: State<V>, p: Plugin, mla: V, k: Kernels<V>)
    requires Topological(plan) && s.nodes.Keys == Produced(plan) - Consumed(plan) && (s.started <==> plan != [])
    requires Step(s, p, mla, k).Some? && !p.PassThrough() && NewOutputs(p, Produced(plan))
    ensures Topological(plan + [p])
    ensures Step(s, p, mla, k).value.nodes.Keys == Produced(plan + [p]) - Consumed(plan + [p])
  {
    NodesOfStep(s, p, mla, k);
    TopologicalOneMore(plan, p);
    ProducedOneMore(plan, p);
    ConsumedOneMore(plan, p);
    ConsumedIsProduced(plan);
  }

  lemma SlotsOfStep<V>(s: State<V>, p: Plugin, mla: V, k: Kernels<V>)
    requires Step(s, p, mla, k).Some? && !p.PassThrough()
    ensures Step(s, p, mla, k).value.started
    ensures |Step(s, p, mla, k).value.slots| == if p.Splits() then |p.outputs| else |s.slots|
  {
  }

  lemma SplitlessOneMore(plan: seq<Plugin>, p: Plugin)
    ensures Splitless(plan + [p]) <==> Splitless(plan) && !p.Splits()
    ensures AtMostOneSplit(plan + [p]) <==> AtMostOneSplit(plan) && (p.Splits() ==> Splitless(plan))
  {
    var all := plan + [p];
    assert all[|plan|] == p && forall n :: 0 <= n < |plan| ==> all[n] == plan[n];
  }

  lemma StepMeaning<V>(plan: seq<Plugin>, s: State<V>, p: Plugin, env: Env<V>, mla: V, k: Kernels<V>)
    requires Meaning(plan, env, mla, k) && env.Keys == Produced(plan) && (s.started <==> plan != [])
    requires Step(s, p, mla, k).Some? && !p.PassThrough() && FreshOutputs(p, env)
    requires if s.started then Represents(s, env) else |s.slots| == 1 && s.nodes == map[] && env == map[]
    ensures Meaning(plan + [p], NextEnv(s, p, env, mla, k), mla, k)
    ensures NextEnv(s, p, env, mla, k).Keys == Produced(plan + [p])
  {
    var more := Added(p, InputTensor(s, p, mla), k);
    StepEquation(s, p, env, mla, k);
    hide Step, Equation, Represents, Meaning, Produced;
    MeaningOneMore(plan, p, env, more, mla, k);
    ProducedOneMore(plan, p);
  }

  /** Once the step's parts are known, so is the whole. */
  lemma StepMeans<V>(plan: seq<Plugin>, s: State<V>, p: Plugin, env: Env<V>, mla: V, k: Kernels<V>)
    requires StateMeans(plan, s, env, mla, k)
    requires Step(s, p, mla, k).Some? && !p.PassThrough() && FreshOutputs(p, env)
    requires p.Splits() ==> |s.slots| == 1
    ensures StateMeans(plan + [p], Step(s, p, mla, k).value, NextEnv(s, p, env, mla, k), mla, k)
  {
    hide Step, Meaning, Represents, Produced, Consumed, Splitless, AtMostOneSplit, Topological, NextEnv, NewOutputs;
    SplitlessOneMore(plan, p);
    SlotsOfStep(s, p, mla, k);
    StepMeaning(plan, s, p, env, mla, k);
    StepRepresents(s, p, env, mla, k);
    LiveNames(plan, s, p, mla, k);
  }

  lemma LastStepReady<V>(before: seq<Plugin>, p: Plugin, s: State<V>, env: Env<V>, mla: V, k: Kernels<V>)
    requires FreshNames(before + [p]) && AtMostOneSplit(before + [p]) && StateMeans(before, s, env, mla, k)
    ensures FreshOutputs(p, env) && (p.Splits() ==> |s.slots| == 1)
  {
    hide FreshNames, AtMostOneSplit, Splitless, Produced, Consumed, Meaning, Represents, Topological;
    assert (before + [p])[..|before + [p]| - 1] == before;
    FreshPrefix(before + [p]);
    SplitlessOneMore(before, p);
  }

  lemma LastStepMeans<V>(before: seq<Plugin>, p: Plugin, env: Env<V>, zero: V, mla: V, k: Kernels<V>)
    returns (env': Env<V>)
    requires Runs(before + [p], zero, mla, k) && AtMostOneSplit(before + [p])
    requires Run(before, zero, mla, k).Some? && StateMeans(before, Run(before, zero, mla, k).value, env, mla, k)
    ensures StateMeans(before + [p], Run(before + [p], zero, mla, k).value, env', mla, k)
  {
    var s := Run(before, zero, mla, k).value;
    LastStepReady(before, p, s, env, mla, k);
    hide StateMeans, Run, Step, FreshNames, AtMostOneSplit;
    assert (before + [p])[..|before + [p]| - 1] == before;
    RunsPrefix(before + [p], zero, mla, k);
    StepMeans(before, s, p, env, mla, k);
    env' := NextEnv(s, p, env, mla, k);
  }

  /**
   * The interpreter computes the graph: after any successful run the dictionary is a bijection from the
   * names that are produced and not consumed to the slots, and each slot holds what the graph says.
   */
  lemma {:induction false} InterpreterRefinesGraph<V>(plan: seq<Plugin>, zero: V, mla: V, k: Kernels<V>)
    returns (env: Env<V>)
    requires Runs(plan, zero, mla, k) && AtMostOneSplit(plan)
    ensures StateMeans(plan, Run(plan, zero, mla, k).value, env, mla, k)
  {
    if plan == [] {
      env := map[];
    } else {
      var before, p := plan[..|plan| - 1], plan[|plan| - 1];
      RunsPrefix(plan, zero, mla, k);
      assert plan == before + [p];
      SplitlessOneMore(before, p);
      env := InterpreterRefinesGraph(before, zero, mla, k);
      env := LastStepMeans(before, p, env, zero, mla, k);
    }
  }

  // More than one multi-output plugin

  /** A name without a slot of its own is never got rid of. */
  lemma CrowdedStays<V>(s: State<V>, p: Plugin, mla: V, k: Kernels<V>)
    requires s.started && Crowded(s) && Step(s, p, mla, k).Some? && !p.PassThrough() && NewOutputs(p, s.nodes.Keys)
    ensures Crowded(Step(s, p, mla, k).value)
  {
    if p.Splits() {
      CrowdedHasMore(s, p);
      SplitOneOfMany(s, p, mla, k);
    } else {
      CrowdedAfterSingle(s, p, mla, k);
    }
  }

  lemma CrowdedHasMore<V>(s: State<V>, p: Plugin)
    requires s.started && Crowded(s) && SlotFor(s, p).Some?
    ensures NodesWithoutInput(s, p) != map[]
  {
    var kept := NodesWithoutInput(s, p);
    if a :| a in s.nodes && s.nodes[a] >= |s.slots| {
      assert a in kept;
    } else {
      var a, b :| a in s.nodes && b in s.nodes && a != b && s.nodes[a] == s.nodes[b];
      assert a in kept || b in kept;
    }
  }

  lemma CrowdedAfterSingle<V>(s: State<V>, p: Plugin, mla: V, k: Kernels<V>)
    requires s.started && Crowded(s) && Step(s, p, mla, k).Some? && !p.PassThrough() && !p.Splits()
    requires NewOutputs(p, s.nodes.Keys)
    ensures Crowded(Step(s, p, mla, k).value)
  {
    var s', input, output := Step(s, p, mla, k).value, p.inputs[0], p.outputs[0];
    if a :| a in s.nodes && s.nodes[a] >= |s.slots| {
      assert a in s'.nodes && s'.nodes[a] == s.nodes[a];
    } else {
      var a, b :| a in s.nodes && b in s.nodes && a != b && s.nodes[a] == s.nodes[b];
      var a', b' := if a == input then output else a, if b == input then output else b;
      assert a' in s'.nodes && b' in s'.nodes && a' != b' && s'.nodes[a'] == s'.nodes[b'];
    }
  }

  lemma ManySlotsManyNames<V>(s: State<V>, p: Plugin)
    requires s.started && Bijection(s) && |s.slots| > 1
    ensures NodesWithoutInput(s, p) != map[]
  {
    assert Named(s, 0) && Named(s, 1);
    var a, b :| a in s.nodes && b in s.nodes && s.nodes[a] == 0 && s.nodes[b] == 1;
    assert a in NodesWithoutInput(s, p) || b in NodesWithoutInput(s, p);
  }

  lemma {:induction false} LiveAreProduced<V>(plan: seq<Plugin>, zero: V, mla: V, k: Kernels<V>)
    requires Runs(plan, zero, mla, k)
    ensures Run(plan, zero, mla, k).value.nodes.Keys <= Produced(plan)
    ensures Run(plan, zero, mla, k).value.started <==> plan != []
  {
    if plan != [] {
      var before, p := plan[..|plan| - 1], plan[|plan| - 1];
      RunsPrefix(plan, zero, mla, k);
      FreshPrefix(plan);
      assert before + [p] == plan;
      hide Step, FreshNames, Produced;
      LiveAreProduced(before, zero, mla, k);
      NodesOfStep(Run(before, zero, mla, k).value, p, mla, k);
      ProducedOneMore(before, p);
    }
  }

  lemma {:induction false} SecondSplitCrowds<V>(plan: seq<Plugin>, zero: V, mla: V, k: Kernels<V>)
    requires Runs(plan, zero, mla, k) && !AtMostOneSplit(plan)
    ensures Crowded(Run(plan, zero, mla, k).value)
  {
    var before, p := plan[..|plan| - 1], plan[|plan| - 1];
    RunsPrefix(plan, zero, mla, k);
    OutputsAreNew(plan, zero, mla, k);
    assert before + [p] == plan;
    SplitlessOneMore(before, p);
    hide Run, Step, Runs, FreshNames, AtMostOneSplit, Splitless, Produced, NewOutputs, Crowded;
    if AtMostOneSplit(before) {
      CrowdedAfterSplit(before, p, zero, mla, k);
    } else {
      SecondSplitCrowds(before, zero, mla, k);
      CrowdedStays(Run(before, zero, mla, k).value, p, mla, k);
    }
  }

  lemma OutputsAreNew<V>(plan: seq<Plugin>, zero: V, mla: V, k: Kernels<V>)
    requires plan != [] && Runs(plan, zero, mla, k)
    ensures
      var before, p := plan[..|plan| - 1], plan[|plan| - 1];
      && Runs(before, zero, mla, k) && NewOutputs(p, Run(before, zero, mla, k).value.nodes.Keys)
      && (Run(before, zero, mla, k).value.started <==> before != [])
  {
    RunsPrefix(plan, zero, mla, k);
    FreshPrefix(plan);
    hide Run, Produced;
    LiveAreProduced(plan[..|plan| - 1], zero, mla, k);
  }

  lemma CrowdedAfterSplit<V>(plan: seq<Plugin>, p: Plugin, zero: V, mla: V, k: Kernels<V>)
    requires Runs(plan, zero, mla, k) && AtMostOneSplit(plan) && !Splitless(plan)
    requires Step(Run(plan, zero, mla, k).value, p, mla, k).Some? && !p.PassThrough() && p.Splits()
    requires NewOutputs(p, Run(plan, zero, mla, k).value.nodes.Keys)
    ensures Crowded(Step(Run(plan, zero, mla, k).value, p, mla, k).value)
  {
    var env := InterpreterRefinesGraph(plan, zero, mla, k);
    hide Run, Step, Runs, AtMostOneSplit, Produced, Consumed, NewOutputs;
    ManySlotsManyNames(Run(plan, zero, mla, k).value, p);
    SplitOneOfMany(Run(plan, zero, mla, k).value, p, mla, k);
  }

  lemma SameInputSameOutputs<V>(p: Plugin, first: bool, a: Env<V>, b: Env<V>, mla: V, k: Kernels<V>)
    requires Equation(p, first, a, mla, k) && Equation(p, first, b, mla, k)
    requires first || a[p.inputs[0]] == b[p.inputs[0]]
    ensures forall i :: 0 <= i < |p.outputs| ==>
      p.outputs[i] in a && p.outputs[i] in b && a[p.outputs[i]] == b[p.outputs[i]]
  {
  }

  ghost predicate AgreeOn<V>(names: set<string>, a: Env<V>, b: Env<V>) {
    forall x :: x in names ==> x in a && x in b && a[x] == b[x]
  }

  lemma AgreeOneMore<V>(before: seq<Plugin>, p: Plugin, a: Env<V>, b: Env<V>, mla: V, k: Kernels<V>)
    requires AgreeOn(Produced(before), a, b)
    requires before != [] ==> p.inputs != [] && p.inputs[0] in Produced(before)
    requires Equation(p, before == [], a, mla, k) && Equation(p, before == [], b, mla, k)
    ensures AgreeOn(Produced(before + [p]), a, b)
  {
    SameInputSameOutputs(p, before == [], a, b, mla, k);
    ProducedOneMore(before, p);
  }

  /** A graph has one meaning only. */
  lemma {:induction false} MeaningIsUnique<V>(plan: seq<Plugin>, n: nat, a: Env<V>, b: Env<V>, mla: V, k: Kernels<V>)
    requires n <= |plan| && Topological(plan) && Meaning(plan, a, mla, k) && Meaning(plan, b, mla, k)
    ensures AgreeOn(Produced(plan[..n]), a, b)
  {
    if n > 0 {
      MeaningIsUnique(plan, n - 1, a, b, mla, k);
      hide AgreeOn, Meaning, Topological;
      AgreeAtNext(plan, n - 1, a, b, mla, k);
    }
  }

  lemma AgreeAtNext<V>(plan: seq<Plugin>, n: nat, a: Env<V>, b: Env<V>, mla: V, k: Kernels<V>)
    requires n < |plan| && Topological(plan) && Meaning(plan, a, mla, k) && Meaning(plan, b, mla, k)
    requires AgreeOn(Produced(plan[..n]), a, b)
    ensures AgreeOn(Produced(plan[..n + 1]), a, b)
  {
    hide AgreeOn, Equation, Produced;
    assert Equation(plan[n], n == 0, a, mla, k) && Equation(plan[n], n == 0, b, mla, k);
    AgreeOneMore(plan[..n], plan[n], a, b, mla, k);
    assert plan[..n] + [plan[n]] == plan[..n + 1];
  }

  ghost predicate Later(plan: seq<Plugin>, p: Plugin) {
    exists m :: 0 < m < |plan| && plan[m] == p
  }

  lemma SameMultiset(ps: seq<Plugin>, qs: seq<Plugin>)
    requires multiset(ps) == multiset(qs) && ps != [] && qs != [] && ps[0] == qs[0]
    ensures Produced(ps) == Produced(qs) && Consumed(ps) == Consumed(qs)
    ensures forall n :: 0 < n < |ps| ==> Later(qs, ps[n])
  {
    SameMultisetOneWay(ps, qs);
    SameMultisetOneWay(qs, ps);
  }

  lemma SameMultisetOneWay(ps: seq<Plugin>, qs: seq<Plugin>)
    requires multiset(ps) == multiset(qs) && ps != [] && qs != [] && ps[0] == qs[0]
    ensures Produced(ps) <= Produced(qs) && Consumed(ps) <= Consumed(qs)
    ensures forall n :: 0 < n < |ps| ==> Later(qs, ps[n])
  {
    forall n | 0 < n < |ps|
      ensures Later(qs, ps[n])
    {
      LaterInOther(ps, qs, n);
    }
    ProducedByLater(ps, qs);
    ConsumedByLater(ps, qs);
  }

  lemma LaterInOther(ps: seq<Plugin>, qs: seq<Plugin>, n: nat)
    requires multiset(ps) == multiset(qs) && ps != [] && qs != [] && ps[0] == qs[0] && 0 < n < |ps|
    ensures Later(qs, ps[n])
  {
    MultisetOfRest(ps);
    MultisetOfRest(qs);
    assert ps[1..][n - 1] == ps[n];
    assert ps[n] in multiset(qs[1..]);
    var m :| 0 <= m < |qs[1..]| && qs[1..][m] == ps[n];
    assert qs[m + 1] == ps[n];
  }

  lemma MultisetOfRest(plan: seq<Plugin>)
    requires plan != []
    ensures multiset(plan[1..]) == multiset(plan) - multiset{plan[0]}
  {
    assert plan == [plan[0]] + plan[1..];
  }

  lemma ProducedByLater(ps: seq<Plugin>, qs: seq<Plugin>)
    requires ps != [] && qs != [] && ps[0] == qs[0] && forall n :: 0 < n < |ps| ==> Later(qs, ps[n])
    ensures Produced(ps) <= Produced(qs)
  {
    forall x | x in Produced(ps)
      ensures x in Produced(qs)
    {
      var n, i :| 0 <= n < |ps| && 0 <= i < |ps[n].outputs| && ps[n].outputs[i] == x;
      assert n > 0 ==> Later(qs, ps[n]);
      var m :| 0 <= m < |qs| && qs[m] == ps[n];
      assert qs[m].outputs[i] == x;
    }
  }

  lemma ConsumedByLater(ps: seq<Plugin>, qs: seq<Plugin>)
    requires forall n :: 0 < n < |ps| ==> Later(qs, ps[n])
    ensures Consumed(ps) <= Consumed(qs)
  {
    forall x | x in Consumed(ps)
      ensures x in Consumed(qs)
    {
      var n :| 0 < n < |ps| && ps[n].inputs != [] && ps[n].inputs[0] == x;
      assert Later(qs, ps[n]);
      var m :| 0 < m < |qs| && qs[m] == ps[n];
      assert qs[m].inputs[0] == x;
    }
  }

  lemma MeaningOfReordered<V>(ps: seq<Plugin>, qs: seq<Plugin>, env: Env<V>, mla: V, k: Kernels<V>)
    requires multiset(ps) == multiset(qs) && ps != [] && qs != [] && ps[0] == qs[0]
    requires Meaning(qs, env, mla, k)
    ensures Meaning(ps, env, mla, k)
  {
    SameMultiset(ps, qs);
    forall n | 0 <= n < |ps|
      ensures Equation(ps[n], n == 0, env, mla, k)
    {
      if n == 0 {
        assert Equation(qs[0], true, env, mla, k);
      } else {
        assert Later(qs, ps[n]);
        var m :| 0 < m < |qs| && qs[m] == ps[n];
        assert Equation(qs[m], false, env, mla, k);
      }
    }
  }

  lemma SlotsFromNodes<V>(s: State<V>, t: State<V>, a: Env<V>, b: Env<V>)
    requires Represents(s, a) && Represents(t, b) && s.nodes.Keys == t.nodes.Keys && AgreeOn(s.nodes.Keys, a, b)
    ensures |s.slots| <= |t.slots|
    ensures forall i :: 0 <= i < |s.slots| ==> s.slots[i] == t.slots[i]
  {
    forall i | 0 <= i < |s.slots|
      ensures i < |t.slots| && s.slots[i] == t.slots[i]
    {
      SlotFromNode(s, t, a, b, i);
    }
    if |s.slots| > 0 {
      SlotFromNode(s, t, a, b, |s.slots| - 1);
    }
  }

  lemma SlotFromNode<V>(s: State<V>, t: State<V>, a: Env<V>, b: Env<V>, i: nat)
    requires Represents(s, a) && Represents(t, b) && s.nodes.Keys == t.nodes.Keys && AgreeOn(s.nodes.Keys, a, b)
    requires i < |s.slots|
    ensures i < |t.slots| && s.slots[i] == t.slots[i]
  {
    assert Named(s, i);
    var x :| x in s.nodes && s.nodes[x] == i;
    assert x in t.nodes;
  }

  lemma SameStates<V>(s: State<V>, t: State<V>, a: Env<V>, b: Env<V>)
    requires Represents(s, a) && Represents(t, b) && s.nodes.Keys == t.nodes.Keys && AgreeOn(s.nodes.Keys, a, b)
    ensures s.slots == t.slots
  {
    SlotsFromNodes(s, t, a, b);
    SlotsFromNodes(t, s, b, a);
  }

  lemma MeaningsAgree<V>(ps: seq<Plugin>, qs: seq<Plugin>, a: Env<V>, b: Env<V>, mla: V, k: Kernels<V>)
    requires multiset(ps) == multiset(qs) && ps != [] && qs != [] && ps[0] == qs[0]
    requires Topological(ps) && Meaning(ps, a, mla, k) && Meaning(qs, b, mla, k)
    ensures AgreeOn(Produced(ps), a, b)
  {
    MeaningOfReordered(ps, qs, b, mla, k);
    MeaningIsUnique(ps, |ps|, a, b, mla, k);
    assert ps[..|ps|] == ps;
  }

  /** Two runs of the same plugins that start alike return the same list. */
  lemma SameResult<V>(ps: seq<Plugin>, qs: seq<Plugin>, zero: V, mla: V, k: Kernels<V>)
    requires Runs(ps, zero, mla, k) && AtMostOneSplit(ps) && Runs(qs, zero, mla, k) && AtMostOneSplit(qs)
    requires multiset(ps) == multiset(qs) && ps != [] && qs != [] && ps[0] == qs[0]
    ensures Run(ps, zero, mla, k).value.slots == Run(qs, zero, mla, k).value.slots
  {
    var a := InterpreterRefinesGraph(ps, zero, mla, k);
    var b := InterpreterRefinesGraph(qs, zero, mla, k);
    MeaningsAgree(ps, qs, a, b, mla, k);
    SameMultiset(ps, qs);
    SameStates(Run(ps, zero, mla, k).value, Run(qs, zero, mla, k).value, a, b);
  }

  // When a plan runs

  /** No tensor is read twice. */
  ghost predicate ReadsOnce(plan: seq<Plugin>) {
    forall m, n :: 0 < m < n < |plan| && plan[m].inputs != [] && plan[n].inputs != [] ==>
      plan[m].inputs[0] != plan[n].inputs[0]
  }

  ghost predicate SplitsUnpack(plan: seq<Plugin>) {
    forall n :: 0 <= n < |plan| && |plan[n].outputs| > 1 ==> plan[n].kernel == "unpack_transform"
  }

  /** What a plan needs in order to run, apart from the values: a test on the plan alone. */
  ghost predicate WellRouted(plan: seq<Plugin>) {
    NoPassThrough(plan) && FreshNames(plan) && AtMostOneSplit(plan) && ReadsOnce(plan) && SplitsUnpack(plan)
  }

  lemma WellRoutedPrefix(plan: seq<Plugin>, n: nat)
    requires n <= |plan| && WellRouted(plan)
    ensures WellRouted(plan[..n])
  {
    assert forall m :: 0 <= m < n ==> plan[..n][m] == plan[m];
  }

  lemma MeaningPrefix<V>(plan: seq<Plugin>, n: nat, env: Env<V>, mla: V, k: Kernels<V>)
    requires n <= |plan| && Meaning(plan, env, mla, k)
    ensures Meaning(plan[..n], env, mla, k)
  {
    forall m | 0 <= m < n
      ensures Equation(plan[..n][m], m == 0, env, mla, k)
    {
      assert plan[..n][m] == plan[m];
    }
  }

  /** A kernel that the graph's equation applies to the same value applies here too. */
  lemma StepSucceeds<V>(s: State<V>, p: Plugin, env: Env<V>, mla: V, k: Kernels<V>)
    requires Equation(p, !s.started, env, mla, k) && !p.PassThrough()
    requires p.Splits() ==> p.kernel == "unpack_transform"
    requires !s.started ==> |s.slots| > 0
    requires s.started ==>
      && p.inputs[0] in s.nodes && s.nodes[p.inputs[0]] < |s.slots|
      && s.slots[s.nodes[p.inputs[0]]] == env[p.inputs[0]].value
    ensures Step(s, p, mla, k).Some?
  {
  }

  /** What the n-th plugin reads is live when its turn comes. */
  lemma NextInputIsLive(plan: seq<Plugin>, n: nat)
    requires Topological(plan) && ReadsOnce(plan) && 0 < n < |plan|
    ensures plan[n].inputs != [] && plan[n].inputs[0] in Produced(plan[..n]) - Consumed(plan[..n])
  {
    var x := plan[n].inputs[0];
    forall m | 0 < m < n && plan[..n][m].inputs != []
      ensures plan[..n][m].inputs[0] != x
    {
      assert plan[..n][m] == plan[m];
    }
  }

  lemma NextStepSucceeds<V>(plan: seq<Plugin>, n: nat, s: State<V>, env: Env<V>, a: Env<V>, mla: V, k: Kernels<V>)
    requires n < |plan| && WellRouted(plan) && Topological(plan) && Meaning(plan, a, mla, k)
    requires StateMeans(plan[..n], s, env, mla, k) && AgreeOn(Produced(plan[..n]), a, env)
    ensures Step(s, plan[n], mla, k).Some?
  {
    assert Equation(plan[n], n == 0, a, mla, k);
    if n > 0 {
      NextInputIsLive(plan, n);
    }
    hide Equation, Topological, Meaning, ReadsOnce, FreshNames, Produced, Consumed;
    StepSucceeds(s, plan[n], a, mla, k);
  }

  lemma RunOfNothing<V>(zero: V, mla: V, k: Kernels<V>)
    ensures Run([], zero, mla, k) == Some(Start(zero))
  {
  }

  /** A well routed plan in topological order runs, if its graph has a meaning at all. */
  lemma {:induction false} MeaningfulPlanRuns<V>(plan: seq<Plugin>, n: nat, a: Env<V>, zero: V, mla: V, k: Kernels<V>)
    requires n <= |plan| && WellRouted(plan) && Topological(plan) && Meaning(plan, a, mla, k)
    ensures Run(plan[..n], zero, mla, k).Some?
  {
    hide StateMeans, WellRouted, Topological, Meaning, AgreeOn, Run, Produced;
    if n == 0 {
      RunOfNothing(zero, mla, k);
    } else {
      MeaningfulPlanRuns(plan, n - 1, a, zero, mla, k);
      WellRoutedPrefix(plan, n - 1);
      MeaningPrefix(plan, n - 1, a, mla, k);
      var env := AgreesAfterRun(plan[..n - 1], a, zero, mla, k);
      NextStepSucceeds(plan, n - 1, Run(plan[..n - 1], zero, mla, k).value, env, a, mla, k);
      RunOneMore(plan, n - 1, zero, mla, k);
    }
  }

  lemma AgreesAfterRun<V>(plan: seq<Plugin>, a: Env<V>, zero: V, mla: V, k: Kernels<V>) returns (env: Env<V>)
    requires WellRouted(plan) && Meaning(plan, a, mla, k) && Run(plan, zero, mla, k).Some?
    ensures StateMeans(plan, Run(plan, zero, mla, k).value, env, mla, k) && AgreeOn(Produced(plan), a, env)
  {
    env := InterpreterRefinesGraph(plan, zero, mla, k);
    assert plan[..|plan|] == plan;
    hide Run, Represents, Produced, Consumed, AgreeOn;
    MeaningIsUnique(plan, |plan|, a, env, mla, k);
  }

  lemma RunNeedsInput<V>(plan: seq<Plugin>, zero: V, mla: V, k: Kernels<V>)
    requires plan != [] && Runs(plan, zero, mla, k) && AtMostOneSplit(plan)
    ensures
      var before, p := plan[..|plan| - 1], plan[|plan| - 1];
      && (p.Splits() ==> p.kernel == "unpack_transform")
      && (before != [] ==> p.inputs != [] && p.inputs[0] !in Consumed(before))
  {
    var before, p := plan[..|plan| - 1], plan[|plan| - 1];
    RunsPrefix(plan, zero, mla, k);
    FreshPrefix(plan);
    assert before + [p] == plan;
    SplitlessOneMore(before, p);
    var env := InterpreterRefinesGraph(before, zero, mla, k);
    NodesOfStep(Run(before, zero, mla, k).value, p, mla, k);
  }

  lemma ReadsOnceOneMore(plan: seq<Plugin>, p: Plugin)
    requires ReadsOnce(plan) && SplitsUnpack(plan) && (p.Splits() ==> p.kernel == "unpack_transform")
    requires plan != [] && p.inputs != [] ==> p.inputs[0] !in Consumed(plan)
    ensures ReadsOnce(plan + [p]) && SplitsUnpack(plan + [p])
  {
    var all := plan + [p];
    assert all[|plan|] == p && forall n :: 0 <= n < |plan| ==> all[n] == plan[n];
  }

  lemma {:induction false} RunIsWellRouted<V>(plan: seq<Plugin>, zero: V, mla: V, k: Kernels<V>)
    requires Runs(plan, zero, mla, k) && AtMostOneSplit(plan)
    ensures WellRouted(plan)
  {
    if plan != [] {
      var before, p := plan[..|plan| - 1], plan[|plan| - 1];
      RunsPrefix(plan, zero, mla, k);
      assert before + [p] == plan;
      SplitlessOneMore(before, p);
      RunIsWellRouted(before, zero, mla, k);
      RunNeedsInput(plan, zero, mla, k);
      ReadsOnceOneMore(before, p);
    }
  }

  /** Without a second multi-output plugin, exactly the plans whose graph is in order and has a meaning run. */
  lemma RunsExactly<V>(plan: seq<Plugin>, zero: V, mla: V, k: Kernels<V>)
    requires NoPassThrough(plan) && FreshNames(plan) && AtMostOneSplit(plan)
    ensures Run(plan, zero, mla, k).Some? <==>
      Topological(plan) && ReadsOnce(plan) && SplitsUnpack(plan) && exists env: Env<V> :: Meaning(plan, env, mla, k)
  {
    if Run(plan, zero, mla, k).Some? {
      RunIsWellRouted(plan, zero, mla, k);
      var env := InterpreterRefinesGraph(plan, zero, mla, k);
      assert Meaning(plan, env, mla, k);
    }
    if Topological(plan) && ReadsOnce(plan) && SplitsUnpack(plan) && exists env: Env<V> :: Meaning(plan, env, mla, k) {
      var env: Env<V> :| Meaning(plan, env, mla, k);
      MeaningfulPlanRuns(plan, |plan|, env, zero, mla, k);
      assert plan[..|plan|] == plan;
    }
  }

  // Reordering

  lemma FreshOfReordered(ps: seq<Plugin>, qs: seq<Plugin>)
    requires multiset(ps) == multiset(qs) && FreshNames(ps)
    ensures FreshNames(qs)
  {
    forall n | 0 <= n < |qs|
      ensures Distinct(qs[n].outputs)
    {
      assert qs[n] in multiset(qs);
      var i := PlaceOf(ps, qs[n]);
    }
    forall m, n, a, b | 0 <= m < n < |qs| && 0 <= a < |qs[m].outputs| && 0 <= b < |qs[n].outputs|
      ensures qs[m].outputs[a] != qs[n].outputs[b]
    {
      var i, j := TwoPlaces(ps, qs, m, n);
    }
  }

  lemma WellRoutedReordered(ps: seq<Plugin>, qs: seq<Plugin>)
    requires multiset(ps) == multiset(qs) && WellRouted(ps) && ps != [] && qs != [] && ps[0] == qs[0]
    ensures WellRouted(qs)
  {
    FreshOfReordered(ps, qs);
    forall n | 0 <= n < |qs|
      ensures !qs[n].PassThrough() && (qs[n].Splits() ==> qs[n].kernel == "unpack_transform")
    {
      assert qs[n] in multiset(qs);
      var i := PlaceOf(ps, qs[n]);
    }
    forall m, n | 0 <= m < n < |qs| && qs[m].Splits()
      ensures !qs[n].Splits()
    {
      var i, j := TwoPlaces(ps, qs, m, n);
    }
    ReadsOnceReordered(ps, qs);
  }

  lemma ReadsOnceReordered(ps: seq<Plugin>, qs: seq<Plugin>)
    requires multiset(ps) == multiset(qs) && ReadsOnce(ps) && ps != [] && qs != [] && ps[0] == qs[0]
    ensures ReadsOnce(qs)
  {
    MultisetOfRest(ps);
    MultisetOfRest(qs);
    forall m, n | 0 < m < n < |qs| && qs[m].inputs != [] && qs[n].inputs != []
      ensures qs[m].inputs[0] != qs[n].inputs[0]
    {
      var i, j := TwoPlaces(ps[1..], qs[1..], m - 1, n - 1);
      assert ps[i + 1] == qs[m] && ps[j + 1] == qs[n];
    }
  }

  lemma ReorderedRuns<V>(ps: seq<Plugin>, qs: seq<Plugin>, zero: V, mla: V, k: Kernels<V>)
    requires Runs(ps, zero, mla, k) && AtMostOneSplit(ps)
    requires multiset(ps) == multiset(qs) && ps != [] && qs != [] && ps[0] == qs[0]
    ensures WellRouted(qs)
    ensures Run(qs, zero, mla, k).Some? <==> Topological(qs)
  {
    RunIsWellRouted(ps, zero, mla, k);
    WellRoutedReordered(ps, qs);
    if Topological(qs) {
      var a := InterpreterRefinesGraph(ps, zero, mla, k);
      MeaningOfReordered(qs, ps, a, mla, k);
      MeaningfulPlanRuns(qs, |qs|, a, zero, mla, k);
      assert qs[..|qs|] == qs;
    }
    if Run(qs, zero, mla, k).Some? {
      var b := InterpreterRefinesGraph(qs, zero, mla, k);
    }
  }

  function Active(plan: seq<Plugin>): seq<Plugin> {
    if plan == [] then [] else
    Active(plan[..|plan| - 1]) + if plan[|plan| - 1].kernel == "pass_through" then [] else [plan[|plan| - 1]]
  }

  /** Pass-through plugins are transparent, whatever names they carry. */
  lemma {:induction false} PassThroughIsTransparent<V>(plan: seq<Plugin>, zero: V, mla: V, k: Kernels<V>)
    ensures Run(plan, zero, mla, k) == Run(Active(plan), zero, mla, k)
    ensures NoPassThrough(Active(plan))
  {
    if plan != [] {
      hide Step;
      var before, last := plan[..|plan| - 1], plan[|plan| - 1];
      PassThroughIsTransparent(before, zero, mla, k);
      if last.PassThrough() {
        assert Active(plan) == Active(before);
        if Run(before, zero, mla, k).Some? {
          PassThroughStep(Run(before, zero, mla, k).value, last, mla, k);
        }
      } else {
        assert Active(plan) == Active(before) + [last];
        RunOfAppended(Active(before), last, zero, mla, k);
      }
    }
  }

  lemma PassThroughStep<V>(s: State<V>, p: Plugin, mla: V, k: Kernels<V>)
    requires p.PassThrough()
    ensures Step(s, p, mla, k) == Some(s)
  {
  }

  lemma RunOfAppended<V>(plan: seq<Plugin>, p: Plugin, zero: V, mla: V, k: Kernels<V>)
    ensures Run(plan + [p], zero, mla, k)
         == if Run(plan, zero, mla, k).None? then None else Step(Run(plan, zero, mla, k).value, p, mla, k)
  {
    assert (plan + [p])[..|plan|] == plan;
  }

  // Plans with pass-through plugins

  /**
   * The dictionary is a bijection exactly when at most one plugin has several outputs; it then represents the
   * graph's meaning. A second such plugin leaves a name without a slot of its own for good.
   */
  lemma BijectionExactly<V>(plan: seq<Plugin>, zero: V, mla: V, k: Kernels<V>) returns (env: Env<V>)
    requires Active(plan) != [] && FreshNames(Active(plan)) && Run(plan, zero, mla, k).Some?
    ensures Bijection(Run(plan, zero, mla, k).value) <==> AtMostOneSplit(Active(plan))
    ensures AtMostOneSplit(Active(plan)) ==> StateMeans(Active(plan), Run(plan, zero, mla, k).value, env, mla, k)
  {
    PassThroughIsTransparent(plan, zero, mla, k);
    env := map[];
    if AtMostOneSplit(Active(plan)) {
      env := InterpreterRefinesGraph(Active(plan), zero, mla, k);
    } else {
      SecondSplitCrowds(Active(plan), zero, mla, k);
    }
  }

  /**
   * Of a plan that runs with at most one multi-output plugin, another order with the same first plugin runs
   * exactly when it is topological, and then it returns the same list.
   */
  lemma {:induction false} OrderDoesNotMatter<V>(ps: seq<Plugin>, qs: seq<Plugin>, zero: V, mla: V, k: Kernels<V>)
    requires Run(ps, zero, mla, k).Some? && FreshNames(Active(ps)) && AtMostOneSplit(Active(ps))
    requires multiset(Active(ps)) == multiset(Active(qs))
    requires Active(ps) == [] || (Active(qs) != [] && Active(ps)[0] == Active(qs)[0])
    ensures Run(qs, zero, mla, k).Some? <==> Topological(Active(qs))
    ensures Run(qs, zero, mla, k).Some? ==> Run(qs, zero, mla, k).value.slots == Run(ps, zero, mla, k).value.slots
  {
    PassThroughIsTransparent(ps, zero, mla, k);
    PassThroughIsTransparent(qs, zero, mla, k);
    if Active(ps) == [] {
      assert |multiset(Active(qs))| == 0;
      assert Active(qs) == [];
    } else {
      ReorderedRuns(Active(ps), Active(qs), zero, mla, k);
      if Run(qs, zero, mla, k).Some? {
        SameResult(Active(ps), Active(qs), zero, mla, k);
      }
    }
  }

  /**
   * A plan returns a single value, and not a list, exactly when it has no multi-output plugin. Without any active
   * plugin that value is the placeholder.
   */
  lemma SingleExactly<V>(plan: seq<Plugin>, zero: V, mla: V, k: Kernels<V>)
    requires FreshNames(Active(plan)) && AtMostOneSplit(Active(plan)) && Run(plan, zero, mla, k).Some?
    ensures OutputOf(Run(plan, zero, mla, k).value.slots).Single? <==> Splitless(Active(plan))
    ensures Active(plan) == [] ==> OutputOf(Run(plan, zero, mla, k).value.slots) == Single(zero)
  {
    PassThroughIsTransparent(plan, zero, mla, k);
    var env := InterpreterRefinesGraph(Active(plan), zero, mla, k);
  }

  // Two multi-output plugins after another one

  function Unpack(input: string, first: string, second: string): Plugin {
    Plugin("unpack_transform", "", [input], [first, second])
  }

  /** A transform that doubles, whose results consist of themselves and their successors. */
  const DOUBLING: Kernels<int> := Kernels((kernel, params, v) => Some(2 * v), v => [v, v + 1])

  lemma UnpackStep(s: State<int>, p: Plugin, input: string, first: string, second: string, mla: int)
    requires p == Unpack(input, first, second) && SlotFor(s, p).Some?
    ensures
      var v := 2 * InputOf(s, p, mla);
      Step(s, p, mla, DOUBLING) == Some(State(true, [v, v + 1], NodesWithoutInput(s, p) + map[first := 0][second := 1]))
  {
    assert [first, second][..1] == [first] && [first][..0] == [];
    assert Numbered([first]) == map[first := 0];
    assert Numbered([first, second]) == map[first := 0][second := 1];
  }

  ghost predicate SixNames(n: seq<string>) {
    |n| == 6 && Distinct(n)
  }

  /** The first plugin makes two tensors, and each of the others splits one of these: the first one first. */
  function FirstThenSecond(n: seq<string>): seq<Plugin>
    requires |n| == 6
  {
    [Unpack("", n[0], n[1]), Unpack(n[0], n[2], n[3]), Unpack(n[1], n[4], n[5])]
  }

  /** The same, but the second one first. */
  function SecondThenFirst(n: seq<string>): seq<Plugin>
    requires |n| == 6
  {
    [Unpack("", n[0], n[1]), Unpack(n[1], n[4], n[5]), Unpack(n[0], n[2], n[3])]
  }

  lemma RunOfThree(first: Plugin, second: Plugin, third: Plugin, mla: int)
    ensures
      var one := Step(Start(0), first, mla, DOUBLING);
      var two := if one.None? then None else Step(one.value, second, mla, DOUBLING);
      Run([first, second, third], 0, mla, DOUBLING) == if two.None? then None else Step(two.value, third, mla, DOUBLING)
  {
    hide Step;
    RunOfAppended([], first, 0, mla, DOUBLING);
    RunOfAppended([first], second, 0, mla, DOUBLING);
    RunOfAppended([first, second], third, 0, mla, DOUBLING);
    assert [] + [first] == [first] && [first] + [second] == [first, second];
    assert [first, second] + [third] == [first, second, third];
  }

  lemma FirstUnpack(a: string, b: string, mla: int)
    requires a != b
    ensures Step(Start(0), Unpack("", a, b), mla, DOUBLING)
         == Some(State(true, [2 * mla, 2 * mla + 1], map[a := 0][b := 1]))
  {
    UnpackStep(Start(0), Unpack("", a, b), "", a, b, mla);
    hide Step;
    assert map[] + map[a := 0][b := 1] == map[a := 0][b := 1];
  }

  function Pair(c: string, d: string): map<string, nat> { map[c := 0][d := 1] }

  /** The name that is split goes; the others keep their slots, which now hold parts of its result. */
  lemma NextUnpack(s: State<int>, kept: map<string, nat>, read: string, slot: nat, c: string, d: string, mla: int)
    requires s.started && slot < |s.slots| && read !in kept && s.nodes == kept[read := slot]
    ensures Step(s, Unpack(read, c, d), mla, DOUBLING)
         == Some(State(true, [2 * s.slots[slot], 2 * s.slots[slot] + 1], kept + Pair(c, d)))
  {
    UnpackStep(s, Unpack(read, c, d), read, c, d, mla);
    hide Step;
    assert s.nodes - {read} == kept;
  }

  lemma PairAfterOther(other: string, slot: nat, c: string, d: string)
    requires other !in [c, d]
    ensures map[other := slot] + Pair(c, d) == Pair(c, d)[other := slot]
  {
  }

  lemma ThreeUnpacks(a: string, b: string, read: string, other: string, slot: nat,
                     c: string, d: string, e: string, f: string, mla: int)
    requires a != b && slot < 2 && other !in [c, d]
    requires if slot == 0 then read == a && other == b else read == b && other == a
    ensures
      var kept := if slot == 0 then 2 * (2 * mla) + 1 else 2 * (2 * mla + 1);
      Run([Unpack("", a, b), Unpack(read, c, d), Unpack(other, e, f)], 0, mla, DOUBLING)
        == Some(State(true, [2 * kept, 2 * kept + 1], Pair(c, d) + Pair(e, f)))
  {
    hide Step, Run;
    var one := State(true, [2 * mla, 2 * mla + 1], map[a := 0][b := 1]);
    FirstUnpack(a, b, mla);
    NextUnpack(one, map[other := 1 - slot], read, slot, c, d, mla);
    var v := 2 * one.slots[slot];
    PairAfterOther(other, 1 - slot, c, d);
    NextUnpack(State(true, [v, v + 1], Pair(c, d)[other := 1 - slot]), Pair(c, d), other, 1 - slot, e, f, mla);
    hide Pair;
    RunOfThree(Unpack("", a, b), Unpack(read, c, d), Unpack(other, e, f), mla);
  }

  /**
   * Such plans run, and end with two names for each slot. And the order in which they run shows in the result,
   * for any value that they start from.
   */
  lemma TwoMoreSplits(n: seq<string>, mla: int)
    requires SixNames(n)
    ensures NoPassThrough(FirstThenSecond(n)) && FreshNames(FirstThenSecond(n))
    ensures Topological(FirstThenSecond(n)) && Topological(SecondThenFirst(n))
    ensures multiset(FirstThenSecond(n)) == multiset(SecondThenFirst(n))
    ensures FirstThenSecond(n)[0] == SecondThenFirst(n)[0]
    ensures Run(FirstThenSecond(n), 0, mla, DOUBLING).Some? && Run(SecondThenFirst(n), 0, mla, DOUBLING).Some?
    ensures !Bijection(Run(FirstThenSecond(n), 0, mla, DOUBLING).value)
    ensures Run(FirstThenSecond(n), 0, mla, DOUBLING).value.slots
      != Run(SecondThenFirst(n), 0, mla, DOUBLING).value.slots
  {
    ThreeUnpacks(n[0], n[1], n[0], n[1], 0, n[2], n[3], n[4], n[5], mla);
    ThreeUnpacks(n[0], n[1], n[1], n[0], 1, n[4], n[5], n[2], n[3], mla);
    UnpacksTopological(n);
    UnpacksFresh(n);
    SameUnpacks(n);
    hide Run, Topological, FreshNames, NoPassThrough, FirstThenSecond, SecondThenFirst, Crowded;
    SharedSlot(Run(FirstThenSecond(n), 0, mla, DOUBLING).value, n[2], n[3], n[4], n[5]);
  }

  lemma SameUnpacks(n: seq<string>)
    requires |n| == 6
    ensures NoPassThrough(FirstThenSecond(n)) && multiset(FirstThenSecond(n)) == multiset(SecondThenFirst(n))
    ensures FirstThenSecond(n) == [Unpack("", n[0], n[1]), Unpack(n[0], n[2], n[3]), Unpack(n[1], n[4], n[5])]
    ensures SecondThenFirst(n) == [Unpack("", n[0], n[1]), Unpack(n[1], n[4], n[5]), Unpack(n[0], n[2], n[3])]
  {
    var first, a, b := Unpack("", n[0], n[1]), Unpack(n[0], n[2], n[3]), Unpack(n[1], n[4], n[5]);
    assert !first.PassThrough() && !a.PassThrough() && !b.PassThrough();
    hide Unpack;
  }

  lemma SharedSlot(s: State<int>, c: string, d: string, e: string, f: string)
    requires s.nodes == Pair(c, d) + Pair(e, f) && Distinct([c, d, e, f])
    ensures Crowded(s)
  {
    var names := [c, d, e, f];
    assert names[0] != names[1] && names[0] != names[2] && names[0] != names[3] && names[2] != names[3];
    assert s.nodes[c] == s.nodes[e] && c != e;
  }

  lemma UnpacksFresh(n: seq<string>)
    requires SixNames(n)
    ensures FreshNames(FirstThenSecond(n)) && Distinct([n[2], n[3], n[4], n[5]])
  {
  }

  lemma UnpacksTopological(n: seq<string>)
    requires |n| == 6
    ensures Topological(FirstThenSecond(n)) && Topological(SecondThenFirst(n))
  {
    forall plan: seq<Plugin>, i: nat | plan in {FirstThenSecond(n), SecondThenFirst(n)} && 0 < i < 3
      ensures plan[i].inputs[0] in Produced(plan[..i])
    {
      assert plan[..i][0].outputs[0] == n[0] && plan[..i][0].outputs[1] == n[1];
    }
  }
}
